/** Why a drained board still has Backlog rows: chains of blockers, obstacles and cycles. */
module Stranded {
  import opened Text
  import opened Kanban
  import opened Claiming
  import opened Drain
  import opened DrainEnds
  import opened Stuck

  // ---------- chains ----------

  /** Row indices, each waiting for the next. */
  ghost predicate Waits(rows: seq<Row>, path: seq<nat>) {
    && (forall k :: 0 <= k < |path| ==> path[k] < |rows|)
    && forall k :: 0 <= k < |path| - 1 ==> WaitsFor(rows, path[k], path[k + 1])
  }

  /** A chain of waiting Backlog rows from row i to an obstacle. */
  ghost predicate ChainFrom(rows: seq<Row>, leases: Leases, i: nat, path: seq<nat>) {
    && |path| >= 1 && path[0] == i && Waits(rows, path)
    && Obstacle(rows[path[|path| - 1]], leases)
    && forall k :: 0 <= k < |path| - 1 ==> rows[path[k]].status == BACKLOG
  }

  ghost predicate HasChain(rows: seq<Row>, leases: Leases, i: nat) {
    exists path :: ChainFrom(rows, leases, i, path)
  }

  /** A walk of n waiting Backlog rows, none of them an obstacle. */
  ghost predicate WalkFrom(rows: seq<Row>, leases: Leases, i: nat, path: seq<nat>) {
    && |path| >= 1 && path[0] == i && Waits(rows, path)
    && forall k :: 0 <= k < |path| ==> rows[path[k]].status == BACKLOG && !Leased(leases, rows[path[k]])
  }

  lemma BacklogWaits(rows: seq<Row>, leases: Leases, i: nat) returns (j: nat)
    requires NothingToClaim(rows, leases) && i < |rows| && rows[i].status == BACKLOG && !Leased(leases, rows[i])
    ensures j < |rows| && WaitsFor(rows, i, j) && (rows[j].status == BACKLOG || Obstacle(rows[j], leases))
  {
    assert rows[i] in rows;
    assert !IsUnblocked(rows[i], rows);
    var b :| b in Blockers(rows[i]) && HoldsBack(rows, b);
    j := FindRow(rows, b);
    assert rows[j] in rows;
  }

  lemma WaitsCons(rows: seq<Row>, i: nat, path: seq<nat>)
    requires i < |rows| && Waits(rows, path) && (path != [] ==> WaitsFor(rows, i, path[0]))
    ensures Waits(rows, [i] + path)
  {
    var longer := [i] + path;
    forall k | 0 <= k < |longer| - 1
      ensures WaitsFor(rows, longer[k], longer[k + 1])
    {
      if k > 0 {
        assert WaitsFor(rows, path[k - 1], path[k - 1 + 1]);
      }
    }
  }

  lemma ChainCons(rows: seq<Row>, leases: Leases, i: nat, rest: seq<nat>)
    requires i < |rows| && rows[i].status == BACKLOG
    requires rest != [] && ChainFrom(rows, leases, rest[0], rest) && WaitsFor(rows, i, rest[0])
    ensures ChainFrom(rows, leases, i, [i] + rest)
  {
    WaitsCons(rows, i, rest);
    var path := [i] + rest;
    assert path[|path| - 1] == rest[|rest| - 1];
    assert forall k :: 1 <= k < |path| ==> path[k] == rest[k - 1];
  }

  lemma WalkCons(rows: seq<Row>, leases: Leases, i: nat, rest: seq<nat>)
    requires i < |rows| && rows[i].status == BACKLOG && !Leased(leases, rows[i])
    requires rest != [] && WalkFrom(rows, leases, rest[0], rest) && WaitsFor(rows, i, rest[0])
    ensures WalkFrom(rows, leases, i, [i] + rest)
  {
    WaitsCons(rows, i, rest);
    var path := [i] + rest;
    assert forall k :: 1 <= k < |path| ==> path[k] == rest[k - 1];
  }

  /** On a drained board a Backlog row has a chain to an obstacle, or blockers can be followed for n steps. */
  lemma {:induction false} ChainOrWalk(rows: seq<Row>, leases: Leases, i: nat, n: nat) returns (path: seq<nat>)
    requires NothingToClaim(rows, leases) && i < |rows| && rows[i].status == BACKLOG
    ensures ChainFrom(rows, leases, i, path) || (WalkFrom(rows, leases, i, path) && |path| == n + 1)
    decreases n
  {
    path := [i];
    if n > 0 && !Leased(leases, rows[i]) {
      var j := BacklogWaits(rows, leases, i);
      var rest := [j];
      if rows[j].status == BACKLOG {
        rest := ChainOrWalk(rows, leases, j, n - 1);
      }
      path := [i] + rest;
      if ChainFrom(rows, leases, j, rest) {
        ChainCons(rows, leases, i, rest);
      } else {
        WalkCons(rows, leases, i, rest);
      }
    }
  }

  // ---------- cycles ----------

  /** Row i names row j as a blocker, whatever their statuses. */
  ghost predicate Edge(rows: seq<Row>, i: nat, j: nat)
    requires i < |rows|
  {
    exists b :: b in Blockers(rows[i]) && Known(rows, b) && FindRow(rows, b) == j
  }

  /** Row indices, each naming the next as a blocker, and the last the first. */
  ghost predicate Cycle(rows: seq<Row>, cycle: seq<nat>) {
    && |cycle| >= 1 && (forall k :: 0 <= k < |cycle| ==> cycle[k] < |rows|)
    && (forall k :: 0 <= k < |cycle| - 1 ==> Edge(rows, cycle[k], cycle[k + 1]))
    && Edge(rows, cycle[|cycle| - 1], cycle[0])
  }

  ghost predicate HasCycle(rows: seq<Row>) {
    exists cycle :: Cycle(rows, cycle)
  }

  lemma {:induction false} IndicesBelow(n: nat) returns (s: set<nat>)
    ensures |s| == n && forall i: nat :: i in s <==> i < n
  {
    s := {};
    if n > 0 {
      var less := IndicesBelow(n - 1);
      s := less + {n - 1};
    }
  }

  /** A walk longer than the board goes round a cycle. */
  lemma LongWalkHasCycle(rows: seq<Row>, leases: Leases, i: nat, path: seq<nat>)
    requires WalkFrom(rows, leases, i, path) && |path| > |rows|
    ensures HasCycle(rows)
  {
    var s := IndicesBelow(|rows|);
    var a, b := Repeats(path, s);
    forall k | 0 <= k < |path| - 1
      ensures Edge(rows, path[k], path[k + 1])
    {
      assert WaitsFor(rows, path[k], path[k + 1]);
    }
    var cycle := path[a..b];
    assert forall k :: 0 <= k < |cycle| ==> cycle[k] == path[a + k];
    forall k | 0 <= k < |cycle| - 1
      ensures Edge(rows, cycle[k], cycle[k + 1])
    {
      assert Edge(rows, path[a + k], path[a + k + 1]);
    }
    assert Edge(rows, path[b - 1], path[b - 1 + 1]);
    assert Cycle(rows, cycle);
  }

  // ---------- the exact condition ----------

  lemma CycleStays(rows: seq<Row>, other: seq<Row>, cycle: seq<nat>)
    requires SameEdges(rows, other) && Cycle(rows, cycle)
    ensures Cycle(other, cycle)
  {
    forall i: nat, j: nat | i < |rows| && Edge(rows, i, j)
      ensures Edge(other, i, j)
    {
      var b :| b in Blockers(rows[i]) && Known(rows, b) && FindRow(rows, b) == j;
      SameIdsFindRow(rows, other, b);
      assert b in Blockers(other[i]);
    }
  }

  /** Every Backlog row has a chain of waiting blockers to an obstacle. */
  ghost predicate BehindObstacle(rows: seq<Row>, leases: Leases) {
    forall i: nat :: i < |rows| && rows[i].status == BACKLOG ==> HasChain(rows, leases, i)
  }

  lemma DrainedBehindObstacle(rows: seq<Row>, other: seq<Row>, leases: Leases)
    requires !HasCycle(rows) && SameEdges(rows, other) && NothingToClaim(other, leases)
    ensures BehindObstacle(other, leases)
  {
    if cycle :| Cycle(other, cycle) { CycleStays(other, rows, cycle); }
    forall i: nat | i < |other| && other[i].status == BACKLOG
      ensures HasChain(other, leases, i)
    {
      var path := ChainOrWalk(other, leases, i, |other|);
      if !ChainFrom(other, leases, i, path) { LongWalkHasCycle(other, leases, i, path); }
    }
  }

  /** The rows of a cycle in Backlog, and all others Done. */
  function Waiting(rows: seq<Row>, cycle: seq<nat>): seq<Row> {
    seq(|rows|, k requires 0 <= k < |rows| => rows[k].(status := if k in cycle then BACKLOG else DONE))
  }

  lemma NextInCycle(rows: seq<Row>, cycle: seq<nat>, k: nat) returns (j: nat)
    requires Cycle(rows, cycle) && k in cycle
    ensures j in cycle && Edge(rows, k, j)
  {
    var at :| 0 <= at < |cycle| && cycle[at] == k;
    j := if at == |cycle| - 1 then cycle[0] else cycle[at + 1];
  }

  lemma CycleHoldsBack(rows: seq<Row>, cycle: seq<nat>, k: nat)
    requires Cycle(rows, cycle) && k in cycle && forall i :: i in cycle ==> rows[i].status == BACKLOG
    ensures !IsUnblocked(rows[k], rows)
  {
    var j := NextInCycle(rows, cycle, k);
    var b :| b in Blockers(rows[k]) && Known(rows, b) && FindRow(rows, b) == j;
    assert HoldsBack(rows, b);
  }

  lemma CycleDrains(rows: seq<Row>, cycle: seq<nat>)
    requires Cycle(rows, cycle)
    requires forall k: nat :: k < |rows| ==> rows[k].status == if k in cycle then BACKLOG else DONE
    ensures NothingToClaim(rows, {})
  {
    forall row | row in rows
      ensures !Resumable(row, {}) && !Startable(row, rows, {})
    {
      var k: nat :| k < |rows| && rows[k] == row;
      if k in cycle { CycleHoldsBack(rows, cycle, k); }
    }
  }

  lemma NoObstacleNoChain(rows: seq<Row>)
    requires forall k :: 0 <= k < |rows| ==> rows[k].status == BACKLOG || rows[k].status == DONE
    ensures forall i :: !HasChain(rows, {}, i)
  {
  }

  /** A cycle strands its rows: nothing can be claimed, and none of them is behind an obstacle. */
  lemma CycleStrands(rows: seq<Row>, cycle: seq<nat>)
    requires Cycle(rows, cycle)
    ensures SameEdges(rows, Waiting(rows, cycle)) && NothingToClaim(Waiting(rows, cycle), {})
    ensures forall i :: i in cycle ==>
              Waiting(rows, cycle)[i].status == BACKLOG && !HasChain(Waiting(rows, cycle), {}, i)
  {
    var other := Waiting(rows, cycle);
    CycleStays(rows, other, cycle);
    CycleDrains(other, cycle);
    NoObstacleNoChain(other);
  }

  /** The promise holds, whatever the statuses and leases, for exactly the boards without a cycle of blockers. */
  lemma BehindObstacleExactly(rows: seq<Row>)
    ensures (forall other: seq<Row>, leases: Leases ::
               SameEdges(rows, other) && NothingToClaim(other, leases) ==> BehindObstacle(other, leases))
            <==> !HasCycle(rows)
  {
    if cycle :| Cycle(rows, cycle) {
      CycleStrands(rows, cycle);
      assert cycle[0] in cycle;
      assert !BehindObstacle(Waiting(rows, cycle), {});
    } else {
      forall other: seq<Row>, leases: Leases | SameEdges(rows, other) && NothingToClaim(other, leases)
        ensures BehindObstacle(other, leases)
      {
        DrainedBehindObstacle(rows, other, leases);
      }
    }
  }

  // ---------- runs ----------

  /** What a drained run leaves in Backlog is behind an obstacle, if the board it began with had no cycle. */
  lemma RunLeavesChains(job: Job, board: Board, n: nat)
    requires NothingToClaim(RowsAfter(job, board, n), job.leases) && !HasCycle(board.rows)
    ensures BehindObstacle(RowsAfter(job, board, n), job.leases)
  {
    ShapeStays(job, board, n);
    DrainedBehindObstacle(board.rows, RowsAfter(job, board, n), job.leases);
  }

  /**
   If every outcome is DONE and the board had no cycle, no Blocked or custom status and no live
   lease, then a drained run leaves every task Done.
   */
  lemma AllDone(job: Job, board: Board, n: nat, k: nat)
    requires AllGood(job) && NothingToClaim(RowsAfter(job, board, n), job.leases) && !HasCycle(board.rows)
    requires forall j :: 0 <= j < |board.rows| ==> !Obstacle(board.rows[j], job.leases)
    requires k < |board.rows|
    ensures RowAfter(job, board, n, k).status == DONE
  {
    var out := RowsAfter(job, board, n);
    ShapeStays(job, board, n);
    assert out[k] in out;
    forall j | 0 <= j < |out|
      ensures !Obstacle(out[j], job.leases)
    {
      DoneOrUntouched(job, board, n, j);
    }
    RunLeavesChains(job, board, n);
  }
}
