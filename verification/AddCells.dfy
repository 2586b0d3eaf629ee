/** What the board operations leave in each cell, in the board's own texts. */
module AddCells {
  import opened Text
  import opened Kanban
  import opened BoardOps
  import opened BoardAdd

  /** The cell holds, trimmed, the first of the texts that is not empty. */
  predicate FirstText(cell: string, texts: seq<string>) {
    exists i ::
      0 <= i < |texts| && texts[i] != "" && cell == Trim(texts[i]) && forall j :: 0 <= j < i ==> texts[j] == ""
  }

  lemma OfTwo(cell: string, a: string, b: string)
    requires b != ""
    ensures FirstText(cell, [a, b]) <==> cell == Trim(if a != "" then a else b)
  {
    var texts := [a, b];
    assert texts[0] == a && texts[1] == b;
  }

  lemma OfThree(cell: string, a: string, b: string, c: string)
    requires c != ""
    ensures FirstText(cell, [a, b, c]) <==> cell == Trim(if a != "" then a else if b != "" then b else c)
  {
    var texts := [a, b, c];
    assert texts[0] == a && texts[1] == b && texts[2] == c;
  }

  /** The text of an option; an omitted one is empty. */
  function Asked(option: Option<string>): string {
    if option.None? then "" else option.value
  }

  /** A given description of more than 128 characters is its first 125 and three points. */
  predicate DescriptionCell(option: Option<string>, was: string, cell: string) {
    if option.None? then FirstText(cell, [was, "-"])
    else if |option.value| > 128 then cell == Trim(option.value[..125] + "...")
    else FirstText(cell, [option.value, "-"])
  }

  /** Options come before what the row had, and that before the default. */
  predicate OptionCells(opts: AddOptions, was: Row, row: Row) {
    && FirstText(row.title, [Asked(opts.title), was.title, "New task"])
    && FirstText(row.priority, [Asked(opts.priority), was.priority, "Low"])
    && FirstText(row.owner, [Asked(opts.owner), was.owner, "loop"])
    && FirstText(row.blockedBy, [Asked(opts.blockedBy), was.blockedBy, "-"])
    && FirstText(row.planFile, [Asked(opts.plan), was.planFile, "-"])
  }

  /** No option writes the status. The Blocks cell of a task that names itself is that of `BlockerListsId`. */
  predicate WrittenRow(opts: AddOptions, id: string, was: Row, row: Row) {
    && row.id == id
    && FirstText(row.status, [was.status, "Backlog"])
    && OptionCells(opts, was, row)
    && DescriptionCell(opts.description, was.description, row.description)
    && (id !in NamedBlockers(opts) ==> FirstText(row.blocks, [Asked(opts.blocks), was.blocks, "-"]))
    && row.extra.Keys == was.extra.Keys
    && forall h :: h in row.extra ==> FirstText(row.extra[h], [was.extra[h], "-"])
  }

  lemma DescriptionWritten(opts: AddOptions, id: string, was: Row)
    ensures DescriptionCell(opts.description, was.description, NewRow(id, opts, was).description)
  {
    var cell := NewRow(id, opts, was).description;
    OfTwo(cell, was.description, "-");
    OfTwo(cell, Asked(opts.description), "-");
  }

  lemma ExtraWritten(opts: AddOptions, id: string, was: Row, h: string)
    requires h in was.extra
    ensures FirstText(NewRow(id, opts, was).extra[h], [was.extra[h], "-"])
  {
    OfTwo(NewRow(id, opts, was).extra[h], was.extra[h], "-");
  }

  lemma OptionWritten(cell: string, option: Option<string>, was: string, fallback: string)
    requires fallback != "" && cell == Shown(Or(option, OrText(was, fallback)))
    ensures FirstText(cell, [Asked(option), was, fallback])
  {
    OfThree(cell, Asked(option), was, fallback);
  }

  lemma OptionCellsWritten(opts: AddOptions, id: string, was: Row)
    ensures OptionCells(opts, was, NewRow(id, opts, was))
  {
    var row := NewRow(id, opts, was);
    OptionWritten(row.title, opts.title, was.title, "New task");
    OptionWritten(row.priority, opts.priority, was.priority, "Low");
    OptionWritten(row.owner, opts.owner, was.owner, "loop");
    OptionWritten(row.blockedBy, opts.blockedBy, was.blockedBy, "-");
    OptionWritten(row.planFile, opts.plan, was.planFile, "-");
  }

  lemma CellsOfNewRow(opts: AddOptions, id: string, was: Row)
    requires Shown(id) == id
    ensures WrittenRow(opts, id, was, NewRow(id, opts, was))
  {
    var row := NewRow(id, opts, was);
    OfTwo(row.status, was.status, "Backlog");
    OptionCellsWritten(opts, id, was);
    OptionWritten(row.blocks, opts.blocks, was.blocks, "-");
    DescriptionWritten(opts, id, was);
    forall h | h in row.extra
      ensures FirstText(row.extra[h], [was.extra[h], "-"])
    {
      ExtraWritten(opts, id, was, h);
    }
  }

  const BUILT_IN := {
    "ID", "Status", "Title", "Description", "Priority", "Owner", "Blocks", "Blocked By", "Plan File"
  }

  /** Nothing is there yet: every built-in cell is empty, and so is that of every further column. */
  ghost predicate IsEmptyRow(headers: seq<string>, row: Row) {
    && row.id == row.status == row.title == row.description == row.priority == row.owner == ""
    && row.blocks == row.blockedBy == row.planFile == ""
    && (forall h :: h in row.extra ==> row.extra[h] == "")
    && forall h :: h in row.extra <==> h in headers && h !in BUILT_IN
  }

  /** Add to a row that is there: the first row with the id is rewritten in its place. */
  predicate Rewrites(rows: seq<Row>, opts: AddOptions, id: string, out: seq<Row>, k: nat) {
    && |out| == |rows| && FirstWith(rows, id, k) && FirstWith(out, id, k)
    && WrittenRow(opts, id, rows[k], out[k])
  }

  /** Add of a new id: a row of defaults goes before the first row with a larger number, or last. */
  ghost predicate Inserts(headers: seq<string>, rows: seq<Row>, opts: AddOptions, id: string, out: seq<Row>, k: nat) {
    && |out| == |rows| + 1 && FirstWith(out, id, k)
    && (forall none :: IsEmptyRow(headers, none) ==> WrittenRow(opts, id, none, out[k]))
    && (forall j :: 0 <= j < k ==> NumericId(rows[j].id) <= NumericId(id))
    && (k < |rows| ==> NumericId(rows[k].id) > NumericId(id))
  }

  lemma OnlyEmptyRow(headers: seq<string>, row: Row)
    requires IsEmptyRow(headers, row)
    ensures row == NoRow(headers)
  {
    assert row.extra == NoRow(headers).extra;
  }

  lemma PlaceNumbers(rows: seq<Row>, id: string)
    ensures var k := PlaceFor(rows, id);
            && (forall j :: 0 <= j < k ==> NumericId(rows[j].id) <= NumericId(id))
            && (k < |rows| ==> NumericId(rows[k].id) > NumericId(id))
  {
    var k := PlaceFor(rows, id);
    forall j | 0 <= j < |rows|
      ensures Keys(rows)[j] == KeyOf(rows[j])
    {
      MapAt(rows, KeyOf, j);
    }
  }

  lemma UpsertRewrites(headers: seq<string>, rows: seq<Row>, opts: AddOptions, id: string)
    requires Shown(id) == id && Known(rows, id)
    ensures Rewrites(rows, opts, id, Upsert(headers, rows, id, opts), FindRow(rows, id))
  {
    CellsOfNewRow(opts, id, rows[FindRow(rows, id)]);
  }

  lemma UpsertInserts(headers: seq<string>, rows: seq<Row>, opts: AddOptions, id: string)
    requires Shown(id) == id && !Known(rows, id)
    ensures Inserts(headers, rows, opts, id, Upsert(headers, rows, id, opts), PlaceFor(rows, id))
  {
    var k, row := PlaceFor(rows, id), NewRow(id, opts, NoRow(headers));
    var out := InsertAt(rows, k, row);
    PlaceNumbers(rows, id);
    assert forall j :: 0 <= j < k ==> out[j] == rows[j];
    assert out[k] == row;
    forall none | IsEmptyRow(headers, none)
      ensures WrittenRow(opts, id, none, out[k])
    {
      OnlyEmptyRow(headers, none);
      CellsOfNewRow(opts, id, none);
    }
  }

  /** Linking blockers afterwards changes no cell but Blocks, and not that one of a row it does not name. */
  lemma LinkedRow(up: seq<Row>, opts: AddOptions, id: string, was: Row, k: nat)
    requires FirstWith(up, id, k) && WrittenRow(opts, id, was, up[k])
    ensures var out := LinkAll(up, NamedBlockers(opts), id);
            FirstWith(out, id, k) && WrittenRow(opts, id, was, out[k])
  {
    var out := LinkAll(up, NamedBlockers(opts), id);
    assert out[k] == up[k].(blocks := out[k].blocks);
    if id !in NamedBlockers(opts) {
      LinkAllFrame(up, NamedBlockers(opts), id, k);
    }
  }

  /** What add writes: the first row with its id is exactly this one, where a row with the id was, or at its place. */
  lemma AddedCells(headers: seq<string>, rows: seq<Row>, opts: AddOptions)
    ensures var id, out := ChosenId(rows, opts), AddRows(headers, rows, opts);
            if exists k: nat :: FirstWith(rows, id, k)
            then exists k: nat :: Rewrites(rows, opts, id, out, k)
            else exists k: nat :: Inserts(headers, rows, opts, id, out, k)
  {
    var id, out := ChosenId(rows, opts), AddRows(headers, rows, opts);
    var up := Upsert(headers, rows, id, opts);
    ChosenIdIsTrimmed(rows, opts);
    FirstWithIsFound(rows, id);
    if Known(rows, id) {
      var k := FindRow(rows, id);
      UpsertRewrites(headers, rows, opts, id);
      LinkedRow(up, opts, id, rows[k], k);
      assert Rewrites(rows, opts, id, out, k);
    } else {
      var k := PlaceFor(rows, id);
      UpsertInserts(headers, rows, opts, id);
      forall none | IsEmptyRow(headers, none)
        ensures WrittenRow(opts, id, none, out[k])
      {
        LinkedRow(up, opts, id, none, k);
      }
      assert Inserts(headers, rows, opts, id, out, k);
    }
  }

  lemma {:induction false} LargestNumber(rows: seq<Row>)
    ensures MaxId(rows) == 0 || exists r :: r in rows && NumericId(r.id) == MaxId(rows)
  {
    if rows != [] {
      LargestNumber(rows[1..]);
      assert rows == [rows[0]] + rows[1..];
      assert rows[0] in rows;
      if MaxId(rows) != 0 && MaxId(rows) != NumericId(rows[0].id) {
        var r :| r in rows[1..] && NumericId(r.id) == MaxId(rows[1..]);
        assert r in rows;
      }
    }
  }

  /** T and a number: the largest on the board, or 0, and one more. */
  predicate IsNextId(rows: seq<Row>, id: string, n: nat) {
    && id == "T" + Decimal(n + 1)
    && (forall r :: r in rows ==> NumericId(r.id) <= n)
    && (n == 0 || exists r :: r in rows && NumericId(r.id) == n)
  }

  /** A given id with text in it is taken, trimmed; otherwise the next free one is made up. */
  lemma ChosenIdMeans(rows: seq<Row>, opts: AddOptions)
    ensures var id, given := ChosenId(rows, opts), Asked(opts.id);
            if exists c :: c in given && !IsSpace(c) then id == Trim(given) else exists n: nat :: IsNextId(rows, id, n)
  {
    var id, given := ChosenId(rows, opts), Asked(opts.id);
    BlankIsSpace(given);
    if !exists c :: c in given && !IsSpace(c) {
      MaxIdBounds(rows);
      LargestNumber(rows);
      assert IsNextId(rows, id, MaxId(rows));
    }
  }

  // ---------- status, remove, clean ----------

  /** Setting a status writes one cell of the first row with the id. */
  lemma StatusCells(doc: Board, id: string, status: string)
    ensures var out := SetStatus(doc, id, status);
            && out == doc.(rows := out.rows) && |out.rows| == |doc.rows|
            && forall k: nat :: k < |doc.rows| ==>
                 out.rows[k] == if FirstWith(doc.rows, id, k) then doc.rows[k].(status := status) else doc.rows[k]
  {
    FirstWithIsFound(doc.rows, id);
  }

  /** Removing takes the first row with the id out, and moves no other. */
  lemma RemovedCells(rows: seq<Row>, id: string)
    requires Known(rows, id)
    ensures exists k: nat :: FirstWith(rows, id, k) && RemoveRow(rows, id) == rows[..k] + rows[k + 1..]
  {
    assert FirstWith(rows, id, FindRow(rows, id));
  }

  /** Cleaning looks at each row by itself and keeps their order, and so does the report. */
  lemma {:induction false} CleanedInOrder(rows: seq<Row>, row: Row)
    ensures NotDone([]) == [] && DoneIds([]) == []
    ensures NotDone(rows + [row]) == NotDone(rows) + if row.status == "Done" then [] else [row]
    ensures DoneIds(rows + [row]) == DoneIds(rows) + if row.status == "Done" then [row.id] else []
  {
    if rows == [] {
      assert [row][1..] == [] && rows + [row] == [row];
    } else {
      assert (rows + [row])[1..] == rows[1..] + [row];
      CleanedInOrder(rows[1..], row);
    }
  }
}
