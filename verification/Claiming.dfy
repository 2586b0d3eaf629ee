/** Which task a claim hands out, given the leases of other live processes. */
module Claiming {
  import opened Text
  import opened Kanban
  import opened LockNames

  /** Lease files other live processes hold, by the part of the name that depends on the id. */
  type Leases = set<string>

  predicate Leased(leases: Leases, row: Row) {
    NameChars(row.id) in leases
  }

  // ---------- claiming ----------

  function FirstFree(rows: seq<Row>, leases: Leases): (r: Option<Row>)
    ensures r.Some? ==> r.value in rows && !Leased(leases, r.value)
  {
    if rows == [] then None
    else if !Leased(leases, rows[0]) then Some(rows[0])
    else FirstFree(rows[1..], leases)
  }

  function InProgressRows(rows: seq<Row>): seq<Row> {
    if rows == [] then []
    else (if rows[0].status == IN_PROGRESS then [rows[0]] else []) + InProgressRows(rows[1..])
  }

  /** The row `claim` settles on: an unleased task left In Progress, else the best unleased candidate. */
  function ClaimedRow(rows: seq<Row>, leases: Leases): Option<Row> {
    var resumed := FirstFree(InProgressRows(rows), leases);
    if resumed.Some? then resumed else FirstFree(BacklogCandidates(rows), leases)
  }

  predicate Resumable(row: Row, leases: Leases) {
    row.status == IN_PROGRESS && !Leased(leases, row)
  }

  predicate Startable(row: Row, rows: seq<Row>, leases: Leases) {
    IsCandidate(row, rows) && !Leased(leases, row)
  }

  /** Nothing left to claim. */
  predicate NothingToClaim(rows: seq<Row>, leases: Leases) {
    forall row :: row in rows ==> !Resumable(row, leases) && !Startable(row, rows, leases)
  }

  lemma {:induction false} FirstFreeNone(rows: seq<Row>, leases: Leases)
    ensures FirstFree(rows, leases).None? <==> forall r :: r in rows ==> Leased(leases, r)
  {
    if rows != [] {
      FirstFreeNone(rows[1..], leases);
      assert rows == [rows[0]] + rows[1..];
    }
  }

  lemma {:induction false} InProgressExact(rows: seq<Row>)
    ensures forall r :: r in InProgressRows(rows) <==> r in rows && r.status == IN_PROGRESS
  {
    if rows != [] {
      InProgressExact(rows[1..]);
      assert rows == [rows[0]] + rows[1..];
    }
  }

  /** What a claim returns, and exactly when it returns nothing. */
  lemma ClaimedRowExact(rows: seq<Row>, leases: Leases)
    ensures var r := ClaimedRow(rows, leases);
            && (r.Some? ==> r.value in rows && (Resumable(r.value, leases) || Startable(r.value, rows, leases)))
            && (r.None? <==> NothingToClaim(rows, leases))
            && (r.Some? && (exists row :: row in rows && Resumable(row, leases)) ==> Resumable(r.value, leases))
  {
    InProgressExact(rows);
    BacklogCandidatesExact(rows);
    FirstFreeNone(InProgressRows(rows), leases);
    FirstFreeNone(BacklogCandidates(rows), leases);
  }

  /** The first resumable row in row order is the one that is resumed. */
  lemma {:induction false} ClaimResumesTheFirst(rows: seq<Row>, leases: Leases, k: nat)
    requires k < |rows| && Resumable(rows[k], leases) && forall j :: 0 <= j < k ==> !Resumable(rows[j], leases)
    ensures FirstFree(InProgressRows(rows), leases) == Some(rows[k]) == ClaimedRow(rows, leases)
  {
    var rest := InProgressRows(rows[1..]);
    assert ([rows[0]] + rest)[1..] == rest && [] + rest == rest;
    if k > 0 {
      ClaimResumesTheFirst(rows[1..], leases, k - 1);
    }
  }

  lemma {:induction false} FirstFreeLeads(rows: seq<Row>, leases: Leases, r: Row)
    requires Ordered(rows) && r in rows && !Leased(leases, r)
    ensures FirstFree(rows, leases).Some? && !Before(r, FirstFree(rows, leases).value)
  {
    if Leased(leases, rows[0]) {
      FirstFreeLeads(rows[1..], leases, r);
    }
  }

  /** No unleased candidate comes strictly before the one a claim starts. */
  lemma ClaimStartsTheBest(rows: seq<Row>, leases: Leases, better: Row)
    requires forall row :: row in rows ==> !Resumable(row, leases)
    requires better in rows && Startable(better, rows, leases)
    ensures ClaimedRow(rows, leases).Some? && !Before(better, ClaimedRow(rows, leases).value)
  {
    InProgressExact(rows);
    BacklogCandidatesExact(rows);
    FirstFreeNone(InProgressRows(rows), leases);
    FirstFreeLeads(BacklogCandidates(rows), leases, better);
  }
}
