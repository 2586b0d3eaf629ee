/** What `at kanban add` promises: it touches one row and the Blocks of its blockers, keeps Status, and repeats. */
module BoardAdd {
  import opened Text
  import opened Kanban
  import opened BoardOps

  // ---------- add touches only its row and its blockers ----------

  lemma {:induction false} LinkAllFrame(rows: seq<Row>, blockers: seq<string>, id: string, k: nat)
    requires k < |rows| && (rows[k].id !in blockers || FindRow(rows, rows[k].id) != k)
    ensures LinkAll(rows, blockers, id)[k] == rows[k]
    decreases |blockers|
  {
    if blockers != [] {
      var linked := Link(rows, blockers[0], id);
      SameIdsFindRow(rows, linked, rows[k].id);
      LinkAllFrame(linked, blockers[1..], id, k);
    }
  }

  /** Where a row of the old board is in the new one. */
  function Moved(rows: seq<Row>, id: string, k: nat): nat {
    if Known(rows, id) || k < PlaceFor(rows, id) then k else k + 1
  }

  lemma InsertMoves<T>(s: seq<T>, at: nat, x: T, k: nat)
    requires at <= |s| && k < |s|
    ensures InsertAt(s, at, x)[if k < at then k else k + 1] == s[k]
  {
  }

  lemma UpsertFrame(headers: seq<string>, rows: seq<Row>, id: string, opts: AddOptions, k: nat)
    requires k < |rows|
    ensures var up, m := Upsert(headers, rows, id, opts), Moved(rows, id, k);
            m < |up| && up[m] == if k == FindRow(rows, id) then NewRow(id, opts, rows[k]) else rows[k]
  {
    if !Known(rows, id) {
      InsertMoves(rows, PlaceFor(rows, id), NewRow(id, opts, NoRow(headers)), k);
    }
  }

  /** add changes no other row, except for the Blocks cell of the blockers it names. */
  lemma AddFrame(headers: seq<string>, rows: seq<Row>, opts: AddOptions, k: nat)
    requires k < |rows| && k != FindRow(rows, ChosenId(rows, opts))
    ensures var out, m := AddRows(headers, rows, opts), Moved(rows, ChosenId(rows, opts), k);
            && m < |out| && out[m] == rows[k].(blocks := out[m].blocks)
            && (rows[k].id !in NamedBlockers(opts) ==> out[m] == rows[k])
  {
    var id := ChosenId(rows, opts);
    UpsertFrame(headers, rows, id, opts, k);
    if rows[k].id !in NamedBlockers(opts) {
      LinkAllFrame(Upsert(headers, rows, id, opts), NamedBlockers(opts), id, Moved(rows, id, k));
    }
  }

  // ---------- the row itself ----------

  /** Cells read from a table are trimmed. */
  predicate TrimmedRow(row: Row) {
    && Trim(row.id) == row.id && Trim(row.status) == row.status && Trim(row.title) == row.title
    && Trim(row.description) == row.description && Trim(row.priority) == row.priority && Trim(row.owner) == row.owner
    && Trim(row.blocks) == row.blocks && Trim(row.blockedBy) == row.blockedBy && Trim(row.planFile) == row.planFile
    && forall h :: h in row.extra ==> Trim(row.extra[h]) == row.extra[h]
  }

  predicate TrimmedRows(rows: seq<Row>) {
    forall k :: 0 <= k < |rows| ==> TrimmedRow(rows[k])
  }

  lemma LinkAllStatus(rows: seq<Row>, blockers: seq<string>, id: string, k: nat, status: string)
    requires k < |rows| && rows[k].status == status
    ensures LinkAll(rows, blockers, id)[k].status == status
  {
  }

  lemma ShownStatus(status: string)
    requires Trim(status) == status
    ensures Shown(OrText(status, BACKLOG)) == status <==> status != ""
  {
    TrimPlain(BACKLOG);
  }

  lemma UpsertStatus(headers: seq<string>, rows: seq<Row>, id: string, opts: AddOptions, k: nat)
    requires k == FindRow(rows, id) < |rows|
    ensures |Upsert(headers, rows, id, opts)| == |rows|
    ensures Upsert(headers, rows, id, opts)[k].status == Shown(OrText(rows[k].status, BACKLOG))
  {
  }

  /** An existing row keeps its Status under add exactly when it has one; an empty Status becomes Backlog. */
  lemma AddKeepsStatus(headers: seq<string>, rows: seq<Row>, opts: AddOptions, k: nat)
    requires k == FindRow(rows, ChosenId(rows, opts)) < |rows| && Trim(rows[k].status) == rows[k].status
    ensures |AddRows(headers, rows, opts)| == |rows|
    ensures AddRows(headers, rows, opts)[k].status == rows[k].status <==> rows[k].status != ""
  {
    var id := ChosenId(rows, opts);
    var up := Upsert(headers, rows, id, opts);
    UpsertStatus(headers, rows, id, opts, k);
    LinkAllStatus(up, NamedBlockers(opts), id, k, up[k].status);
    ShownStatus(rows[k].status);
  }

  lemma FieldTwice(option: Option<string>, cell: string, fallback: string)
    requires Trim(cell) == cell && fallback != "" && Trim(fallback) == fallback
    ensures var shown := Shown(Or(option, OrText(cell, fallback)));
            Shown(Or(option, OrText(shown, fallback))) == shown
  {
  }

  lemma ExtraTwice(extra: map<string, string>)
    requires forall h :: h in extra ==> Trim(extra[h]) == extra[h]
    ensures var once := map h | h in extra :: Shown(extra[h]);
            once == map h | h in once :: Shown(once[h])
  {
    TrimPlain(SENTINEL);
  }

  lemma DefaultsPlain()
    ensures Trim(BACKLOG) == BACKLOG && Trim(SENTINEL) == SENTINEL && Trim(DEFAULT_TITLE) == DEFAULT_TITLE
    ensures Trim(DEFAULT_PRIORITY) == DEFAULT_PRIORITY && Trim(DEFAULT_OWNER) == DEFAULT_OWNER
  {
    TrimPlain(BACKLOG);
    TrimPlain(SENTINEL);
    TrimPlain(DEFAULT_TITLE);
    TrimPlain(DEFAULT_PRIORITY);
    TrimPlain(DEFAULT_OWNER);
  }

  /** The row `add` writes is a fixed point: writing it again over itself changes nothing, Blocks apart. */
  lemma NewRowTwice(id: string, opts: AddOptions, prior: Row, blocks: string)
    requires TrimmedRow(prior) && Shown(id) == id
    ensures var once := NewRow(id, opts, prior);
            NewRow(id, opts, once.(blocks := blocks)) ==
            once.(blocks := Shown(Or(opts.blocks, OrText(blocks, SENTINEL))))
  {
    DefaultsPlain();
    FieldTwice(None, prior.status, BACKLOG);
    FieldTwice(opts.title, prior.title, DEFAULT_TITLE);
    FieldTwice(None, prior.description, SENTINEL);
    FieldTwice(opts.priority, prior.priority, DEFAULT_PRIORITY);
    FieldTwice(opts.owner, prior.owner, DEFAULT_OWNER);
    FieldTwice(opts.blockedBy, prior.blockedBy, SENTINEL);
    FieldTwice(opts.plan, prior.planFile, SENTINEL);
    ExtraTwice(prior.extra);
  }

  // ---------- the Blocks cell ----------

  /** What linking does to a Blocks cell. */
  function Linked(cell: string, id: string): string {
    Trim(WithBlocked(cell, id))
  }

  /** An id that a comma list gives back as one entry, or as none; an id without a comma is one. */
  predicate ListsCleanly(id: string) {
    Pieces(id) == [] || Pieces(id) == [id]
  }

  lemma {:induction false} CommaListEnds(list: seq<string>)
    requires list != [] && forall k :: 0 <= k < |list| ==> Solid(list[k])
    ensures Solid(CommaList(list)) && |CommaList(list)| >= |list[|list| - 1]|
    ensures |list| > 1 ==> ',' in CommaList(list) && |CommaList(list)| > |list[|list| - 1]|
  {
    if |list| > 1 {
      CommaListEnds(list[1..]);
      var s := CommaList(list);
      assert s[|list[0]|] == ',';
    }
  }

  lemma CellPieces(cell: string)
    ensures forall k :: 0 <= k < |Pieces(cell)| ==> IsPiece(Pieces(cell)[k])
  {
    PiecesArePieces(Split(cell, ','));
  }

  /** The entries a Blocks cell lists. */
  function Entries(cell: string): seq<string> {
    if Blank(cell) then [] else Pieces(cell)
  }

  lemma ListTrimmed(list: seq<string>)
    requires list != [] && forall k :: 0 <= k < |list| ==> Solid(list[k])
    ensures CommaList(list) != "" && Trim(CommaList(list)) == CommaList(list)
  {
    CommaListEnds(list);
    TrimPlain(CommaList(list));
  }

  lemma ListedStays(list: seq<string>)
    requires list != [] && forall k :: 0 <= k < |list| ==> IsPiece(list[k])
    ensures var s := CommaList(list); s != "" && Trim(s) == s && Pieces(s) == list
  {
    var s := CommaList(list);
    assert s != "" && Trim(s) == s by { ListTrimmed(list); }
    assert Pieces(s) == list by { PiecesOfCommaList(list); }
  }

  lemma ListedJoins(list: seq<string>, id: string)
    requires (forall k :: 0 <= k < |list| ==> IsPiece(list[k])) && Solid(id)
    ensures var s := CommaList(list + [id]); s != "" && Trim(s) == s && Pieces(s) == list + Pieces(id)
  {
    var s := CommaList(list + [id]);
    assert s != "" && Trim(s) == s by { ListTrimmed(list + [id]); }
    assert Pieces(s) == list + Pieces(id) by { PiecesSnoc(list, id); }
  }

  /** Linking keeps a cell's entries in order and puts the pieces of the id after them if it was not one of them. */
  lemma LinkedPieces(cell: string, id: string)
    requires Solid(id)
    ensures Linked(cell, id) == WithBlocked(cell, id) != ""
    ensures Pieces(Linked(cell, id)) == if id in Entries(cell) then Entries(cell) else Entries(cell) + Pieces(id)
  {
    TrimPlain(id);
    if !Blank(cell) {
      var list := Pieces(cell);
      CellPieces(cell);
      if id in list { ListedStays(list); } else { ListedJoins(list, id); }
    }
  }

  /** A list with the id on it. */
  function Including(list: seq<string>, id: string): seq<string> {
    if id in list then list else list + [id]
  }

  lemma LinkedText(cell: string, id: string)
    requires Solid(id)
    ensures Linked(cell, id) == CommaList(Including(Entries(cell), id))
  {
    LinkedPieces(cell, id);
    assert [] + [id] == [id];
  }

  lemma ListedComma(list: seq<string>, id: string)
    requires list != [] && (forall k :: 0 <= k < |list| ==> IsPiece(list[k])) && Solid(id)
    ensures ',' in CommaList(list + [id]) && |CommaList(list + [id])| > |id|
  {
    CommaListEnds(list + [id]);
  }

  lemma SentinelPieces()
    ensures Pieces(SENTINEL) == [SENTINEL]
  {
    TrimPlain(SENTINEL);
    PlainPiece(SENTINEL);
  }

  /** The cell linking leaves behind is blank only when the id is the sentinel itself. */
  lemma LinkedBlank(cell: string, id: string)
    requires Solid(id) && Blank(Linked(cell, id)) && ListsCleanly(id)
    ensures id == SENTINEL == Linked(cell, id)
  {
    var out := Linked(cell, id);
    LinkedPieces(cell, id);
    assert out == SENTINEL;
    SentinelPieces();
    if !Blank(cell) && id !in Pieces(cell) && Pieces(cell) != [] {
      CellPieces(cell);
      ListedComma(Pieces(cell), id);
    }
  }

  lemma EntriesTwice(list: seq<string>, id: string)
    requires ListsCleanly(id)
    ensures Including(if id in list then list else list + Pieces(id), id) == Including(list, id)
  {
    assert list + [] == list;
  }

  lemma LinkTwice(cell: string, id: string)
    requires Solid(id) && ListsCleanly(id)
    ensures Linked(Linked(cell, id), id) == Linked(cell, id)
  {
    var out := Linked(cell, id);
    LinkedPieces(cell, id);
    if Blank(out) {
      LinkedBlank(cell, id);
    } else {
      EntriesTwice(Entries(cell), id);
      LinkedText(cell, id);
      LinkedText(out, id);
    }
  }

  lemma LinkAgainGrows(id: string)
    requires Solid(id) && !ListsCleanly(id)
    ensures |Linked(id, id)| > |id|
  {
    TrimPlain(SENTINEL);
    SentinelPieces();
    assert !Blank(id);
    CellPieces(id);
    PiecesHaveNoComma(id);
    LinkedText(id, id);
    ListedComma(Pieces(id), id);
  }

  lemma LinkTwiceFails(id: string)
    requires Solid(id) && !ListsCleanly(id)
    ensures Linked(Linked(SENTINEL, id), id) != Linked(SENTINEL, id)
  {
    TrimPlain(SENTINEL);
    TrimPlain(id);
    assert Linked(SENTINEL, id) == id;
    LinkAgainGrows(id);
  }

  /** The cell after linking the id n times. */
  function LinkedTimes(cell: string, id: string, n: nat): string {
    if n == 0 then cell else Linked(LinkedTimes(cell, id, n - 1), id)
  }

  lemma LinkedNotBlank(cell: string, id: string)
    requires Solid(id) && !ListsCleanly(id) && id !in Entries(cell)
    ensures !Blank(Linked(cell, id))
  {
    LinkedPieces(cell, id);
    LinkedText(cell, id);
    TrimTwice(WithBlocked(cell, id));
    SentinelPieces();
    CellPieces(cell);
    assert [] + [id] == [id];
    if Entries(cell) != [] { ListedComma(Entries(cell), id); }
  }

  lemma LinkedGrows(cell: string, id: string)
    requires Solid(id) && !ListsCleanly(id) && id !in Entries(cell)
    ensures id !in Entries(Linked(cell, id)) && |Entries(Linked(cell, id))| > |Entries(cell)|
  {
    LinkedNotBlank(cell, id);
    LinkedPieces(cell, id);
    PiecesHaveNoComma(id);
  }

  lemma LinkedOnce(cell: string, id: string, n: nat)
    ensures LinkedTimes(cell, id, n + 1) == Linked(LinkedTimes(cell, id, n), id)
  {
  }

  /** An id that comes apart makes the cell longer every time it is linked. */
  lemma LinkedForEver(cell: string, id: string, n: nat)
    requires Solid(id) && !ListsCleanly(id) && id !in Entries(cell)
    ensures id !in Entries(LinkedTimes(cell, id, n)) && |Entries(LinkedTimes(cell, id, n))| >= |Entries(cell)| + n
  {
    var now, k := cell, 0;
    while k < n
      invariant k <= n && now == LinkedTimes(cell, id, k)
      invariant id !in Entries(now) && |Entries(now)| >= |Entries(cell)| + k
    {
      LinkedOnce(cell, id, k);
      LinkedGrows(now, id);
      now, k := Linked(now, id), k + 1;
    }
  }

  lemma CommaIdExample()
    ensures Solid("a,b") && Pieces("a,b") == ["a", "b"] && !ListsCleanly("a,b")
  {
    TrimPlain("a");
    TrimPlain("b");
    SplitJoin(["a", "b"], ',');
    assert Join(["a", "b"], ',') == "a,b";
    assert ["a", "b"][1..] == ["b"] && ["b"][1..] == [];
  }

  lemma PiecesHaveNoComma(id: string)
    requires Solid(id) && !ListsCleanly(id)
    ensures id !in Pieces(id)
  {
    CellPieces(id);
    if id in Pieces(id) {
      var k :| 0 <= k < |Pieces(id)| && Pieces(id)[k] == id;
      PlainPiece(id);
    }
  }

  /** Linking an id again changes nothing, whatever the cell, exactly when the id lists cleanly. */
  lemma LinkingRepeats(id: string)
    requires Solid(id)
    ensures (forall cell :: Linked(Linked(cell, id), id) == Linked(cell, id)) <==> ListsCleanly(id)
  {
    if ListsCleanly(id) {
      forall cell: string
        ensures Linked(Linked(cell, id), id) == Linked(cell, id)
      {
        LinkTwice(cell, id);
      }
    } else {
      LinkTwiceFails(id);
    }
  }

  // ---------- the whole board ----------

  /** The rows that named blockers find. */
  predicate Named(rows: seq<Row>, blockers: seq<string>, k: nat) {
    exists b :: 0 <= b < |blockers| && FindRow(rows, blockers[b]) == k
  }

  /** Linking all named blockers links each row they name once, and no other. */
  lemma {:induction false} LinkAllAt(rows: seq<Row>, blockers: seq<string>, id: string, k: nat)
    requires k < |rows| && Solid(id) && ListsCleanly(id)
    ensures LinkAll(rows, blockers, id)[k].blocks ==
            if Named(rows, blockers, k) then Linked(rows[k].blocks, id) else rows[k].blocks
    decreases |blockers|
  {
    if blockers != [] {
      var next := Link(rows, blockers[0], id);
      NamedCons(rows, next, blockers, k);
      LinkAllAt(next, blockers[1..], id, k);
      LinkTwice(rows[k].blocks, id);
    }
  }

  lemma NamedCons(rows: seq<Row>, next: seq<Row>, blockers: seq<string>, k: nat)
    requires |next| == |rows| && (forall j :: 0 <= j < |rows| ==> next[j].id == rows[j].id) && blockers != []
    ensures Named(rows, blockers, k) <==> FindRow(rows, blockers[0]) == k || Named(next, blockers[1..], k)
  {
    forall b | 0 <= b < |blockers|
      ensures FindRow(next, blockers[b]) == FindRow(rows, blockers[b])
    {
      SameIdsFindRow(rows, next, blockers[b]);
    }
    if Named(next, blockers[1..], k) {
      var b :| 0 <= b < |blockers[1..]| && FindRow(next, blockers[1..][b]) == k;
      assert blockers[b + 1] == blockers[1..][b];
    }
    if Named(rows, blockers, k) && FindRow(rows, blockers[0]) != k {
      var b :| 0 <= b < |blockers| && FindRow(rows, blockers[b]) == k;
      assert blockers[1..][b - 1] == blockers[b];
    }
  }

  /** Where the written row is and what was there before. */
  lemma UpsertPlace(headers: seq<string>, rows: seq<Row>, id: string, opts: AddOptions) returns (k: nat, prior: Row)
    requires TrimmedRows(rows) && Shown(id) == id
    ensures var up := Upsert(headers, rows, id, opts);
            k == FindRow(up, id) < |up| && up[k] == NewRow(id, opts, prior) && TrimmedRow(prior)
  {
    k := FindRow(rows, id);
    if k < |rows| {
      prior := rows[k];
      FindRowIs(rows[k := NewRow(id, opts, prior)], id, k);
    } else {
      k, prior := PlaceFor(rows, id), NoRow(headers);
      FindInserted(rows, k, NewRow(id, opts, prior));
    }
  }

  lemma FindInserted(rows: seq<Row>, at: nat, row: Row)
    requires at <= |rows| && !Known(rows, row.id)
    ensures FindRow(InsertAt(rows, at, row), row.id) == at
  {
    var out := InsertAt(rows, at, row);
    assert forall j :: 0 <= j < at ==> out[j] == rows[j];
    FindRowIs(out, row.id, at);
  }

  lemma {:induction false} FindRowIs(rows: seq<Row>, id: string, k: nat)
    requires k < |rows| && rows[k].id == id && forall j :: 0 <= j < k ==> rows[j].id != id
    ensures FindRow(rows, id) == k
  {
  }

  /** The Blocks text `add` writes over a cell. */
  function Rewritten(option: Option<string>, cell: string): string {
    Shown(Or(option, OrText(cell, SENTINEL)))
  }

  lemma BlocksTwice(option: Option<string>, prior: string, id: string, named: bool)
    requires Solid(id) && ListsCleanly(id) && Trim(prior) == prior
    ensures var written := Rewritten(option, prior);
            var out := if named then Linked(written, id) else written;
            var again := Rewritten(option, out);
            out == if named then Linked(again, id) else again
  {
    var written := Rewritten(option, prior);
    TrimPlain(SENTINEL);
    FieldTwice(option, prior, SENTINEL);
    if named {
      LinkTwice(written, id);
      LinkedPieces(written, id);
    }
  }

  lemma OtherRowTwice(up: seq<Row>, up2: seq<Row>, blockers: seq<string>, id: string, j: nat)
    requires Solid(id) && ListsCleanly(id) && |up2| == |up| && j < |up|
    requires forall i :: 0 <= i < |up| ==> up2[i].id == up[i].id
    requires up2[j] == LinkAll(up, blockers, id)[j]
    ensures LinkAll(up2, blockers, id)[j] == up2[j]
  {
    NamedSame(up, up2, blockers, j);
    LinkAllAt(up, blockers, id, j);
    LinkAllAt(up2, blockers, id, j);
    LinkTwice(up[j].blocks, id);
  }

  lemma OwnRowTwice(up: seq<Row>, up2: seq<Row>, blockers: seq<string>, id: string, j: nat, option: Option<string>,
                    prior: string)
    requires Solid(id) && ListsCleanly(id) && |up2| == |up| && j < |up| && Trim(prior) == prior
    requires forall i :: 0 <= i < |up| ==> up2[i].id == up[i].id
    requires up[j].blocks == Rewritten(option, prior)
    requires var out := LinkAll(up, blockers, id)[j]; up2[j] == out.(blocks := Rewritten(option, out.blocks))
    ensures LinkAll(up2, blockers, id)[j] == LinkAll(up, blockers, id)[j]
  {
    NamedSame(up, up2, blockers, j);
    LinkAllAt(up, blockers, id, j);
    LinkAllAt(up2, blockers, id, j);
    BlocksTwice(option, prior, id, Named(up, blockers, j));
  }

  lemma NamedSame(a: seq<Row>, b: seq<Row>, blockers: seq<string>, k: nat)
    requires |a| == |b| && forall i :: 0 <= i < |a| ==> a[i].id == b[i].id
    ensures Named(a, blockers, k) <==> Named(b, blockers, k)
  {
    forall i | 0 <= i < |blockers|
      ensures FindRow(a, blockers[i]) == FindRow(b, blockers[i])
    {
      SameIdsFindRow(a, b, blockers[i]);
    }
  }

  lemma UpsertAgain(headers: seq<string>, up: seq<Row>, out: seq<Row>, opts: AddOptions, id: string, k: nat, prior: Row)
    requires |out| == |up| && forall i :: 0 <= i < |up| ==> out[i] == up[i].(blocks := out[i].blocks)
    requires k == FindRow(up, id) < |up| && up[k] == NewRow(id, opts, prior) && TrimmedRow(prior) && Shown(id) == id
    ensures Upsert(headers, out, id, opts) == out[k := out[k].(blocks := Rewritten(opts.blocks, out[k].blocks))]
  {
    SameIdsFindRow(up, out, id);
    NewRowTwice(id, opts, prior, out[k].blocks);
  }

  lemma LinkAllAgain(up: seq<Row>, blockers: seq<string>, id: string, k: nat, option: Option<string>, prior: string)
    requires Solid(id) && ListsCleanly(id) && k < |up| && Trim(prior) == prior
    requires up[k].blocks == Rewritten(option, prior)
    ensures var out := LinkAll(up, blockers, id);
            LinkAll(out[k := out[k].(blocks := Rewritten(option, out[k].blocks))], blockers, id) == out
  {
    var out := LinkAll(up, blockers, id);
    var up2 := out[k := out[k].(blocks := Rewritten(option, out[k].blocks))];
    forall j | 0 <= j < |out|
      ensures LinkAll(up2, blockers, id)[j] == out[j]
    {
      if j == k {
        OwnRowTwice(up, up2, blockers, id, k, option, prior);
      } else {
        OtherRowTwice(up, up2, blockers, id, j);
      }
    }
  }

  /** Adding with a fixed id gives a board that the same add leaves alone, when the id lists cleanly. */
  lemma AddTwice(headers: seq<string>, rows: seq<Row>, opts: AddOptions, id: string)
    requires opts.id == Some(id) && Solid(id) && ListsCleanly(id) && TrimmedRows(rows)
    ensures AddRows(headers, AddRows(headers, rows, opts), opts) == AddRows(headers, rows, opts)
  {
    ChosenIsGiven(rows, opts, id);
    var up := Upsert(headers, rows, id, opts);
    var k, prior := UpsertPlace(headers, rows, id, opts);
    ChosenIsGiven(LinkAll(up, NamedBlockers(opts), id), opts, id);
    UpsertAgain(headers, up, LinkAll(up, NamedBlockers(opts), id), opts, id, k, prior);
    LinkAllAgain(up, NamedBlockers(opts), id, k, opts.blocks, prior.blocks);
  }

  lemma ChosenIsGiven(rows: seq<Row>, opts: AddOptions, id: string)
    requires opts.id == Some(id) && Solid(id)
    ensures ChosenId(rows, opts) == id == Shown(id)
  {
    TrimPlain(id);
  }

  lemma UpsertKeepsFirst(headers: seq<string>, rows: seq<Row>, id: string, opts: AddOptions)
    requires rows != [] && rows[0].id != id && NumericId(rows[0].id) == 0
    ensures var up := Upsert(headers, rows, id, opts); up != [] && up[0] == rows[0]
  {
    UpsertFrame(headers, rows, id, opts, 0);
    assert Keys(rows)[0] == KeyOf(rows[0]);
  }

  lemma LinkFirst(rows: seq<Row>, id: string)
    requires rows != []
    ensures LinkAll(rows, [rows[0].id], id)[0] == rows[0].(blocks := Linked(rows[0].blocks, id))
  {
    var linked := Link(rows, rows[0].id, id);
    assert LinkAll(rows, [rows[0].id], id) == LinkAll(linked, [], id) == linked;
  }

  lemma AddNamesFirst(headers: seq<string>, rows: seq<Row>, opts: AddOptions, id: string)
    requires rows != [] && rows[0].id != id && NumericId(rows[0].id) == 0
    requires opts.id == Some(id) && Solid(id) && NamedBlockers(opts) == [rows[0].id]
    ensures var out := AddRows(headers, rows, opts);
            out != [] && out[0] == rows[0].(blocks := Linked(rows[0].blocks, id))
  {
    ChosenIsGiven(rows, opts, id);
    UpsertKeepsFirst(headers, rows, id, opts);
    LinkFirst(Upsert(headers, rows, id, opts), id);
  }

  lemma OneBlocker(id: string) returns (row: Row, opts: AddOptions)
    ensures TrimmedRow(row) && NumericId(row.id) == 0 && ListsCleanly(row.id) && row.blocks == SENTINEL
    ensures opts.id == Some(id) && NamedBlockers(opts) == [row.id]
  {
    var blocker, cell := "B", SENTINEL;
    TrimPlain(blocker);
    PlainPiece(blocker);
    TrimPlain(cell);
    row := Row(blocker, cell, cell, cell, cell, cell, cell, cell, cell, map[]);
    opts := AddOptions(Some(id), None, None, None, None, Some(blocker), None, None);
  }

  lemma AddNamesFirstTwice(headers: seq<string>, rows: seq<Row>, opts: AddOptions, id: string)
    requires rows != [] && rows[0].id != id && NumericId(rows[0].id) == 0
    requires opts.id == Some(id) && Solid(id) && NamedBlockers(opts) == [rows[0].id]
    ensures var out := AddRows(headers, rows, opts);
            var out2 := AddRows(headers, out, opts);
            out2 == out ==> Linked(Linked(rows[0].blocks, id), id) == Linked(rows[0].blocks, id)
  {
    AddNamesFirst(headers, rows, opts, id);
    AddNamesFirst(headers, AddRows(headers, rows, opts), opts, id);
  }

  /** An id that comes apart is linked in pieces the second time round. */
  lemma AddTwiceFails(headers: seq<string>, id: string) returns (rows: seq<Row>, opts: AddOptions)
    requires Solid(id) && !ListsCleanly(id)
    ensures TrimmedRows(rows) && opts.id == Some(id)
    ensures AddRows(headers, AddRows(headers, rows, opts), opts) != AddRows(headers, rows, opts)
  {
    var row;
    row, opts := OneBlocker(id);
    rows := [row];
    LinkTwiceFails(id);
    AddNamesFirstTwice(headers, rows, opts, id);
  }

  /** add with a fixed id is idempotent, on every board and for all other options, exactly when the id lists cleanly. */
  lemma AddIsIdempotent(headers: seq<string>, id: string)
    requires Solid(id)
    ensures (forall rows: seq<Row>, opts: AddOptions | TrimmedRows(rows) && opts.id == Some(id) ::
               AddRows(headers, AddRows(headers, rows, opts), opts) == AddRows(headers, rows, opts))
            <==> ListsCleanly(id)
  {
    if ListsCleanly(id) {
      forall rows: seq<Row>, opts: AddOptions | TrimmedRows(rows) && opts.id == Some(id)
        ensures AddRows(headers, AddRows(headers, rows, opts), opts) == AddRows(headers, rows, opts)
      {
        AddTwice(headers, rows, opts, id);
      }
    } else {
      var rows, opts := AddTwiceFails(headers, id);
    }
  }

  lemma PiecesWithoutComma(id: string)
    requires Solid(id) && ',' !in id
    ensures ListsCleanly(id)
  {
    PlainPiece(id);
  }

  /** With an id without a comma, the same add again changes nothing. */
  lemma AddWithoutCommaRepeats(headers: seq<string>, rows: seq<Row>, opts: AddOptions, id: string)
    requires opts.id == Some(id) && Solid(id) && ',' !in id && TrimmedRows(rows)
    ensures AddRows(headers, AddRows(headers, rows, opts), opts) == AddRows(headers, rows, opts)
  {
    PiecesWithoutComma(id);
    AddTwice(headers, rows, opts, id);
  }

  function Count(list: seq<string>, id: string): nat {
    if list == [] then 0 else (if list[0] == id then 1 else 0) + Count(list[1..], id)
  }

  lemma {:induction false} CountSnoc(list: seq<string>, id: string)
    ensures Count(list + [id], id) == Count(list, id) + 1
    ensures id in list <==> Count(list, id) > 0
  {
    if list == [] {
      assert list + [id] == [id];
    } else {
      assert (list + [id])[1..] == list[1..] + [id];
      CountSnoc(list[1..], id);
    }
  }

  /** After an add, a blocker that was found lists the id, once more than before at most, and nothing else new. */
  lemma BlockerListsId(rows: seq<Row>, blockers: seq<string>, id: string, k: nat)
    requires k < |rows| && Named(rows, blockers, k) && IsPiece(id)
    ensures var before, after := Entries(rows[k].blocks), Pieces(LinkAll(rows, blockers, id)[k].blocks);
            && id in after && before <= after && |after| <= |before| + 1
            && Count(after, id) == if Count(before, id) == 0 then 1 else Count(before, id)
  {
    var before := Entries(rows[k].blocks);
    PlainPiece(id);
    LinkAllAt(rows, blockers, id, k);
    LinkedPieces(rows[k].blocks, id);
    CountSnoc(before, id);
  }

  // ---------- adding nothing ----------

  /** Every cell of the row has text. */
  predicate Complete(row: Row) {
    && TrimmedRow(row) && row.status != "" && row.title != "" && row.description != "" && row.priority != ""
    && row.owner != "" && row.blocks != "" && row.blockedBy != "" && row.planFile != "" && row.id != ""
    && forall h :: h in row.extra ==> row.extra[h] != ""
  }

  lemma ExtraStays(extra: map<string, string>)
    requires forall h :: h in extra ==> extra[h] != "" && Trim(extra[h]) == extra[h]
    ensures (map h | h in extra :: Shown(extra[h])) == extra
  {
  }

  lemma CompleteStays(id: string, prior: Row)
    requires Complete(prior) && prior.id == id
    ensures NewRow(id, AddOptions(Some(id), None, None, None, None, None, None, None), prior) == prior
  {
    ExtraStays(prior.extra);
  }

  /** Every omitted field comes from the existing row: adding a known id and nothing else changes nothing. */
  lemma AddNothing(headers: seq<string>, rows: seq<Row>, id: string, k: nat)
    requires Solid(id) && k == FindRow(rows, id) < |rows| && Complete(rows[k])
    ensures AddRows(headers, rows, AddOptions(Some(id), None, None, None, None, None, None, None)) == rows
  {
    ChosenIsGiven(rows, AddOptions(Some(id), None, None, None, None, None, None, None), id);
    CompleteStays(id, rows[k]);
  }
}
