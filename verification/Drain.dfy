/**
 The loop that composes a board until nothing is executable, in one process, while the leases
 of other live processes stay as they are. Board ops and hooks succeed.
 */
module Drain {
  import opened Text
  import opened Kanban
  import opened Claiming

  // ---------- what the outside does ----------

  /**
   What the outside answers for one claimed task: the verdict of an already terminal compose
   state, whether a worktree could be made, how the run ended (None: it raised), and whether the
   merge went through.
   */
  datatype Answer = Answer(saved: Option<bool>, worktreeOk: bool, ran: Option<bool>, merged: bool)

  datatype Options = Options(loop: bool, stopOnFail: bool, worktree: bool, merge: bool, maxTasks: Option<nat>)

  /** An answer for each claimed task in turn, and the abort signal. */
  datatype World = World(answer: nat -> Answer, aborted: nat -> bool, planPath: string -> string)

  datatype Exit = Drained | Stopped | Raised

  datatype Outcome = Ended(done: bool) | Broke

  function OutcomeOf(a: Answer, opts: Options): Outcome {
    if a.saved.Some? then Ended(a.saved.value)
    else if opts.worktree && !a.worktreeOk then Ended(false)
    else if a.ran.None? then Broke
    else Ended(a.ran.value)
  }

  predicate MergeFails(a: Answer, opts: Options) {
    a.saved.None? && OutcomeOf(a, opts) == Ended(true) && opts.worktree && opts.merge && !a.merged
  }

  /** The answer makes the loop report a failure. */
  predicate CountsAsFailure(a: Answer, opts: Options) {
    OutcomeOf(a, opts) == Ended(false) || MergeFails(a, opts)
  }

  predicate BadAmong(world: World, opts: Options, n: nat) {
    exists k :: 0 <= k < n && CountsAsFailure(world.answer(k), opts)
  }

  function FinalStatus(done: bool): string {
    if done then DONE else BLOCKED
  }

  predicate StopsAfter(a: Answer, opts: Options) {
    && OutcomeOf(a, opts).Ended?
    && (!opts.loop || MergeFails(a, opts) || (OutcomeOf(a, opts) == Ended(false) && opts.stopOnFail))
  }

  // ---------- the board, round by round ----------

  /** What stays the same while the loop runs. */
  datatype Job = Job(opts: Options, leases: Leases, world: World)

  function Outcomes(job: Job, n: nat): Outcome {
    OutcomeOf(job.world.answer(n), job.opts)
  }

  /** opClaim: a task taken from Backlog is marked In Progress on the first row with its id. */
  function MarkClaimed(board: Board, leases: Leases): Board {
    match ClaimedRow(board.rows, leases)
    case None => board
    case Some(r) => if r.status != IN_PROGRESS then SetStatus(board, r.id, IN_PROGRESS) else board
  }

  /** What the n-th round makes of a board: claim, and finish unless the run raises. */
  function NextBoard(job: Job, board: Board, n: nat): Board {
    match ClaimedRow(board.rows, job.leases)
    case None => board
    case Some(r) =>
      match Outcomes(job, n)
      case Broke => MarkClaimed(board, job.leases)
      case Ended(done) => FinishDoc(MarkClaimed(board, job.leases), r.id, FinalStatus(done), job.world.planPath(r.id))
  }

  function BoardAfter(job: Job, board: Board, n: nat): Board {
    if n == 0 then board else NextBoard(job, BoardAfter(job, board, n - 1), n - 1)
  }

  function RowsAfter(job: Job, board: Board, n: nat): seq<Row> {
    BoardAfter(job, board, n).rows
  }

  /** What the n-th round claims. */
  function Taken(job: Job, board: Board, n: nat): Option<Row> {
    ClaimedRow(RowsAfter(job, board, n), job.leases)
  }

  // ---------- when the loop ends ----------

  /** The last of n rounds raised or ended the loop. */
  predicate LeavesAfter(job: Job, n: nat) {
    n > 0 && (Outcomes(job, n - 1).Broke? || StopsAfter(job.world.answer(n - 1), job.opts))
  }

  predicate CutAt(job: Job, n: nat) {
    job.world.aborted(n) || (job.opts.maxTasks.Some? && n >= job.opts.maxTasks.value)
  }

  /** The loop has a reason to end after n rounds. */
  predicate EndsAt(job: Job, board: Board, n: nat) {
    LeavesAfter(job, n) || CutAt(job, n) || NothingToClaim(RowsAfter(job, board, n), job.leases)
  }

  /** The loop runs n rounds: it has no reason to end before. */
  predicate Reaches(job: Job, board: Board, n: nat) {
    forall j :: 0 <= j < n ==> !EndsAt(job, board, j)
  }

  function ExitAt(job: Job, n: nat): Exit {
    if n > 0 && Outcomes(job, n - 1).Broke? then Raised
    else if LeavesAfter(job, n) || CutAt(job, n) then Stopped
    else Drained
  }

  function ExitCode(job: Job, n: nat): int {
    if ExitAt(job, n).Raised? || BadAmong(job.world, job.opts, n) then 1 else 0
  }

  /** Nothing cuts the loop short. */
  ghost predicate RunsToTheEnd(job: Job) {
    && job.opts.loop && !job.opts.stopOnFail && job.opts.maxTasks.None?
    && forall k: nat :: !job.world.aborted(k) && Outcomes(job, k).Ended? && !MergeFails(job.world.answer(k), job.opts)
  }

  /** How the options bound a run of n rounds. */
  lemma OptionsBoundTheRun(job: Job, board: Board, n: nat)
    requires Reaches(job, board, n)
    ensures job.opts.maxTasks.Some? ==> n <= job.opts.maxTasks.value
    ensures !job.opts.loop ==> n <= 1
    ensures job.opts.stopOnFail ==> forall j :: 0 <= j < n - 1 ==> Outcomes(job, j) == Ended(true)
    ensures forall j :: 0 <= j < n - 1 ==> Outcomes(job, j).Ended? && !MergeFails(job.world.answer(j), job.opts)
  {
    if job.opts.maxTasks.Some? && n > job.opts.maxTasks.value {
      assert EndsAt(job, board, job.opts.maxTasks.value);
    }
    assert n > 1 ==> !EndsAt(job, board, 1);
    forall j | 0 <= j < n - 1
      ensures Outcomes(job, j).Ended? && !StopsAfter(job.world.answer(j), job.opts)
    {
      assert !EndsAt(job, board, j + 1);
    }
  }

  /** When nothing cuts it short, the loop ends only on a board with nothing to claim. */
  lemma EndsDrained(job: Job, board: Board, n: nat)
    requires EndsAt(job, board, n)
    ensures ExitAt(job, n).Drained? ==> NothingToClaim(RowsAfter(job, board, n), job.leases)
    ensures RunsToTheEnd(job) ==> ExitAt(job, n).Drained?
  {
  }

  // ---------- one round ----------

  predicate SameButStatus(a: Row, b: Row) {
    b == a.(status := b.status, planFile := b.planFile)
  }

  predicate Open(row: Row, leases: Leases) {
    row.status in [BACKLOG, IN_PROGRESS] && !Leased(leases, row)
  }

  /** A round that claims something rewrites the first row with the claimed id, and nothing else. */
  lemma RoundChanges(job: Job, board: Board, n: nat) returns (f: nat)
    requires ClaimedRow(board.rows, job.leases).Some?
    ensures var r, rows, out := ClaimedRow(board.rows, job.leases).value, board.rows, NextBoard(job, board, n).rows;
            && r in rows && Open(r, job.leases)
            && f == FindRow(rows, r.id) < |rows| == |out| && out == rows[f := out[f]] && !Leased(job.leases, rows[f])
            && SameButStatus(rows[f], out[f])
            && (Outcomes(job, n).Ended? ==> out[f].status == FinalStatus(Outcomes(job, n).done))
            && (Outcomes(job, n).Broke? ==> out[f].status == IN_PROGRESS || out == rows)
  {
    var r, rows := ClaimedRow(board.rows, job.leases).value, board.rows;
    ClaimedRowExact(rows, job.leases);
    f := FindRow(rows, r.id);
    assert forall k :: 0 <= k < |rows| ==> rows[k] in rows;
    var marked := MarkClaimed(board, job.leases).rows;
    SameIdsFindRow(rows, marked, r.id);
  }

  lemma NothingTakenStays(job: Job, board: Board, n: nat)
    ensures Taken(job, board, n).None? ==> BoardAfter(job, board, n + 1) == BoardAfter(job, board, n)
  {
  }

  // ---------- from one round to many ----------

  /** What relates the boards before and after each round relates those of any two moments. */
  lemma {:induction false} AcrossRounds<T(!new)>(at: nat -> T, related: (T, T) -> bool, i: nat, n: nat)
    requires i <= n && forall a :: related(a, a)
    requires forall a, b, c :: related(a, b) && related(b, c) ==> related(a, c)
    requires forall j: nat :: i <= j < n ==> related(at(j), at(j + 1))
    ensures related(at(i), at(n))
    decreases n - i
  {
    if i < n {
      AcrossRounds(at, related, i, n - 1);
      assert related(at(n - 1), at(n - 1 + 1));
    }
  }

  // ---------- what the rounds leave alone ----------

  predicate SameShape(rows: seq<Row>, out: seq<Row>) {
    |out| == |rows| && forall k :: 0 <= k < |rows| ==> SameButStatus(rows[k], out[k])
  }

  lemma RoundKeepsShape(job: Job, board: Board, n: nat)
    ensures SameShape(RowsAfter(job, board, n), RowsAfter(job, board, n + 1))
  {
    NothingTakenStays(job, board, n);
    if Taken(job, board, n).Some? {
      var f := RoundChanges(job, BoardAfter(job, board, n), n);
    }
  }

  /** Rows keep their number and all cells but Status and Plan File. */
  lemma ShapeStays(job: Job, board: Board, n: nat)
    ensures SameShape(board.rows, RowsAfter(job, board, n))
  {
    forall j: nat
      ensures SameShape(RowsAfter(job, board, j), RowsAfter(job, board, j + 1))
    {
      RoundKeepsShape(job, board, j);
    }
    AcrossRounds(j => RowsAfter(job, board, j), SameShape, 0, n);
  }

  lemma FindStays(job: Job, board: Board, n: nat, id: string)
    ensures FindRow(RowsAfter(job, board, n), id) == FindRow(board.rows, id)
  {
    ShapeStays(job, board, n);
    SameIdsFindRow(board.rows, RowsAfter(job, board, n), id);
  }

  /** Row k after n rounds. */
  function RowAfter(job: Job, board: Board, n: nat, k: nat): Row
    requires k < |board.rows|
  {
    ShapeStays(job, board, n);
    RowsAfter(job, board, n)[k]
  }

  /** The n-th round takes something whose first row this is. */
  predicate Touches(job: Job, board: Board, n: nat, k: nat) {
    Taken(job, board, n).Some? && FindRow(board.rows, Taken(job, board, n).value.id) == k
  }

  lemma UntouchedInRound(job: Job, board: Board, n: nat, k: nat)
    requires k < |board.rows| && !Touches(job, board, n, k)
    ensures RowAfter(job, board, n + 1, k) == RowAfter(job, board, n, k)
  {
    NothingTakenStays(job, board, n);
    if Taken(job, board, n).Some? {
      var f := RoundChanges(job, BoardAfter(job, board, n), n);
      FindStays(job, board, n, Taken(job, board, n).value.id);
      ShapeStays(job, board, n);
      assert f != k;
    }
  }

  /** A row that no round takes is the same before and after. */
  lemma UntakenStays(job: Job, board: Board, i: nat, n: nat, k: nat)
    requires i <= n && k < |board.rows| && forall j :: i <= j < n ==> !Touches(job, board, j, k)
    ensures RowAfter(job, board, n, k) == RowAfter(job, board, i, k)
  {
    forall j: nat | i <= j < n
      ensures RowAfter(job, board, j, k) == RowAfter(job, board, j + 1, k)
    {
      UntouchedInRound(job, board, j, k);
    }
    AcrossRounds(j => RowAfter(job, board, j, k), (a, b) => a == b, i, n);
  }

  lemma TakenIsNotLeased(job: Job, board: Board, n: nat, k: nat)
    requires k < |board.rows| && Touches(job, board, n, k)
    ensures !Leased(job.leases, board.rows[k])
  {
    ClaimedRowExact(RowsAfter(job, board, n), job.leases);
    assert board.rows[k].id == Taken(job, board, n).value.id;
  }

  /** Rows leased by other live processes are never written. */
  lemma LeasedRowsStay(job: Job, board: Board, n: nat, k: nat)
    requires k < |board.rows| && Leased(job.leases, board.rows[k])
    ensures RowAfter(job, board, n, k) == board.rows[k]
  {
    forall j | 0 <= j < n
      ensures !Touches(job, board, j, k)
    {
      if Touches(job, board, j, k) { TakenIsNotLeased(job, board, j, k); }
    }
    UntakenStays(job, board, 0, n, k);
  }

  /** A row that is not the first with its id is never written either. */
  lemma SecondRowsStay(job: Job, board: Board, n: nat, k: nat)
    requires k < |board.rows| && FindRow(board.rows, board.rows[k].id) != k
    ensures RowAfter(job, board, n, k) == board.rows[k]
  {
    UntakenStays(job, board, 0, n, k);
  }

  // ---------- rounds that write what they take ----------

  /** The n-th round writes the very row it took. */
  predicate TakesFirst(job: Job, board: Board, n: nat) {
    var rows, r := RowsAfter(job, board, n), Taken(job, board, n);
    r.Some? ==> FindRow(rows, r.value.id) < |rows| && rows[FindRow(rows, r.value.id)] == r.value
  }

  /**
   How rounds may leave a row: its id and edges stay, a row that was not open is untouched, and an open one is
   as it was, or Done, or Blocked after a failure, or In Progress after a run that raised.
   */
  predicate Evolved(before: Row, after: Row, leases: Leases, failed: bool, raised: bool) {
    && SameButStatus(before, after)
    && (!Open(before, leases) ==> after == before)
    && (after == before || after.status == DONE || (failed && after.status == BLOCKED)
        || (raised && after.status == IN_PROGRESS))
  }

  predicate FailedIn(job: Job, i: nat, n: nat) {
    exists k :: i <= k < n && Outcomes(job, k) == Ended(false)
  }

  predicate RaisedIn(job: Job, i: nat, n: nat) {
    exists k :: i <= k < n && Outcomes(job, k).Broke?
  }

  /** A round that writes row k has taken it, and not another row with its id. */
  predicate WritesTaken(job: Job, board: Board, n: nat, k: nat)
    requires k < |board.rows|
  {
    Touches(job, board, n, k) ==> Taken(job, board, n) == Some(RowAfter(job, board, n, k))
  }

  lemma FirstIsTaken(job: Job, board: Board, n: nat, k: nat)
    requires TakesFirst(job, board, n) && k < |board.rows|
    ensures WritesTaken(job, board, n, k)
  {
    if Touches(job, board, n, k) { FindStays(job, board, n, Taken(job, board, n).value.id); }
  }

  lemma RowEvolvesInRound(job: Job, board: Board, n: nat, k: nat)
    requires k < |board.rows| && WritesTaken(job, board, n, k)
    ensures Evolved(RowAfter(job, board, n, k), RowAfter(job, board, n + 1, k), job.leases,
                    Outcomes(job, n) == Ended(false), Outcomes(job, n).Broke?)
  {
    if Touches(job, board, n, k) {
      var f := RoundChanges(job, BoardAfter(job, board, n), n);
      FindStays(job, board, n, Taken(job, board, n).value.id);
    } else {
      UntouchedInRound(job, board, n, k);
    }
  }

  /** Rounds that write a row only when they have taken it only move it towards its end. */
  lemma RowEvolves(job: Job, board: Board, i: nat, n: nat, k: nat)
    requires i <= n && k < |board.rows| && forall j :: i <= j < n ==> WritesTaken(job, board, j, k)
    ensures Evolved(RowAfter(job, board, i, k), RowAfter(job, board, n, k), job.leases,
                    FailedIn(job, i, n), RaisedIn(job, i, n))
  {
    var failed, raised := FailedIn(job, i, n), RaisedIn(job, i, n);
    forall j: nat | i <= j < n
      ensures Evolved(RowAfter(job, board, j, k), RowAfter(job, board, j + 1, k), job.leases, failed, raised)
    {
      RowEvolvesInRound(job, board, j, k);
    }
    AcrossRounds(j => RowAfter(job, board, j, k), (a, b) => Evolved(a, b, job.leases, failed, raised), i, n);
  }

  predicate InBacklog(job: Job, board: Board, n: nat, k: nat)
    requires k < |board.rows|
  {
    RowAfter(job, board, n, k).status == BACKLOG
  }

  /** The n-th round takes row k out of Backlog. */
  predicate LeavesBacklog(job: Job, board: Board, n: nat, k: nat)
    requires k < |board.rows|
  {
    InBacklog(job, board, n, k) && !InBacklog(job, board, n + 1, k)
  }

  /** The n-th round takes row k as it is, from Backlog, with every known blocker Done. */
  predicate StartsRow(job: Job, board: Board, n: nat, k: nat)
    requires k < |board.rows|
  {
    && Taken(job, board, n) == Some(RowAfter(job, board, n, k))
    && IsCandidate(RowAfter(job, board, n, k), RowsAfter(job, board, n))
  }

  lemma LeavesWhenTouched(job: Job, board: Board, n: nat, k: nat)
    requires k < |board.rows| && LeavesBacklog(job, board, n, k)
    ensures Touches(job, board, n, k)
    ensures WritesTaken(job, board, n, k) ==> StartsRow(job, board, n, k)
  {
    if !Touches(job, board, n, k) { UntouchedInRound(job, board, n, k); }
    ClaimedRowExact(RowsAfter(job, board, n), job.leases);
  }

  /** A row that was in Backlog and is not any more left it in some round. */
  lemma BacklogRound(job: Job, board: Board, n: nat, k: nat) returns (j: nat)
    requires k < |board.rows| && InBacklog(job, board, 0, k) && !InBacklog(job, board, n, k)
    ensures j < n && LeavesBacklog(job, board, j, k)
  {
    if i: nat :| i < n && InBacklog(job, board, i, k) && !InBacklog(job, board, i + 1, k) {
      j := i;
    } else {
      AcrossRounds((i: nat) => InBacklog(job, board, i, k), (a, b) => a ==> b, 0, n);
    }
  }

  // ---------- the loop ends ----------

  ghost function OpenRows(rows: seq<Row>, leases: Leases): set<nat> {
    set i: nat | i < |rows| && Open(rows[i], leases)
  }

  lemma ClosedRow(rows: seq<Row>, out: seq<Row>, f: nat, leases: Leases)
    requires f < |rows| == |out| && out == rows[f := out[f]]
    requires Open(rows[f], leases) && !Open(out[f], leases)
    ensures |OpenRows(out, leases)| == |OpenRows(rows, leases)| - 1
  {
    assert f in OpenRows(rows, leases);
    assert OpenRows(out, leases) == OpenRows(rows, leases) - {f};
  }

  /** A round that writes the row it took, and does not raise, leaves one open row fewer. */
  lemma RoundClosesARow(job: Job, board: Board, n: nat)
    requires TakesFirst(job, board, n) && Taken(job, board, n).Some?
    ensures |OpenRows(RowsAfter(job, board, n), job.leases)| >= 1
    ensures Outcomes(job, n).Ended? ==>
              |OpenRows(RowsAfter(job, board, n + 1), job.leases)| ==
              |OpenRows(RowsAfter(job, board, n), job.leases)| - 1
  {
    var f := RoundChanges(job, BoardAfter(job, board, n), n);
    assert f in OpenRows(RowsAfter(job, board, n), job.leases);
    if Outcomes(job, n).Ended? {
      ClosedRow(RowsAfter(job, board, n), RowsAfter(job, board, n + 1), f, job.leases);
    }
  }

  lemma ReasonToEnd(job: Job, board: Board, n: nat)
    ensures Taken(job, board, n).None? ==> EndsAt(job, board, n)
    ensures Outcomes(job, n).Broke? ==> EndsAt(job, board, n + 1)
  {
    ClaimedRowExact(RowsAfter(job, board, n), job.leases);
  }

  /** As long as rounds write the rows they take, the loop has an end. */
  lemma {:induction false} FindEnd(job: Job, board: Board, n: nat) returns (e: nat)
    requires forall j :: TakesFirst(job, board, j)
    ensures EndsAt(job, board, e) && n <= e <= n + |OpenRows(RowsAfter(job, board, n), job.leases)|
    decreases |OpenRows(RowsAfter(job, board, n), job.leases)|
  {
    ReasonToEnd(job, board, n);
    if Taken(job, board, n).None? {
      e := n;
    } else {
      RoundClosesARow(job, board, n);
      if Outcomes(job, n).Broke? {
        e := n + 1;
      } else {
        e := FindEnd(job, board, n + 1);
      }
    }
  }
}
