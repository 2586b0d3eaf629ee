/** The board mutations behind `at kanban`: add, status, remove and clean. */
module BoardOps {
  import opened Text
  import opened Kanban

  const DEFAULT_TITLE := "New task"
  const DEFAULT_PRIORITY := "Low"
  const DEFAULT_OWNER := "loop"
  const VALID_PRIORITIES := ["High", "Medium", "Low"]
  const MAX_DESC := 128
  const DESC_SUFFIX := "..."

  datatype AddOptions = AddOptions(
    id: Option<string>,
    title: Option<string>,
    priority: Option<string>,
    owner: Option<string>,
    blocks: Option<string>,
    blockedBy: Option<string>,
    plan: Option<string>,
    description: Option<string>
  )

  datatype AddResult = Added(id: string, updated: bool) | InvalidPriority | MissingColumn(name: string)

  // ---------- fresh ids ----------

  function MaxId(rows: seq<Row>): nat {
    if rows == [] then 0
    else if NumericId(rows[0].id) > MaxId(rows[1..]) then NumericId(rows[0].id) else MaxId(rows[1..])
  }

  function GeneratedId(rows: seq<Row>): string {
    "T" + Decimal(MaxId(rows) + 1)
  }

  lemma {:induction false} MaxIdBounds(rows: seq<Row>)
    ensures forall r :: r in rows ==> NumericId(r.id) <= MaxId(rows)
  {
    if rows != [] {
      MaxIdBounds(rows[1..]);
      assert rows == [rows[0]] + rows[1..];
    }
  }

  lemma GeneratedIdNumber(rows: seq<Row>)
    ensures NumericId(GeneratedId(rows)) == MaxId(rows) + 1 && Trim(GeneratedId(rows)) == GeneratedId(rows)
    ensures Pieces(GeneratedId(rows)) == [GeneratedId(rows)]
  {
    var id, d := GeneratedId(rows), Decimal(MaxId(rows) + 1);
    DecimalValue(MaxId(rows) + 1);
    assert id[1..] == d && id[|id| - 1] == d[|d| - 1];
    assert forall k :: 0 <= k < |id| ==> id[k] == 'T' || IsDigit(id[k]);
    TrimPlain(id);
    PlainPiece(id);
  }

  /** A generated id is on no row, whatever ids the board already has. */
  lemma GeneratedIdIsFresh(rows: seq<Row>)
    ensures !Known(rows, GeneratedId(rows))
  {
    GeneratedIdNumber(rows);
    MaxIdBounds(rows);
    assert forall k :: 0 <= k < |rows| ==> rows[k] in rows;
  }

  // ---------- comma lists ----------

  function NonEmptyTrimmed(parts: seq<string>): seq<string> {
    if parts == [] then []
    else (if Trim(parts[0]) != "" then [Trim(parts[0])] else []) + NonEmptyTrimmed(parts[1..])
  }

  /** `s.split(",").map(trim).filter(Boolean)`. */
  function Pieces(s: string): seq<string> {
    NonEmptyTrimmed(Split(s, ','))
  }

  /** `list.join(", ")`. */
  function CommaList(list: seq<string>): string {
    if list == [] then "" else if |list| == 1 then list[0] else list[0] + ", " + CommaList(list[1..])
  }

  lemma PlainPiece(id: string)
    requires IsPiece(id)
    ensures Pieces(id) == [id]
  {
    TrimPlain(id);
    SplitPlain(id, ',');
    assert [id][1..] == [] && NonEmptyTrimmed([id][1..]) == [];
  }

  /** A piece of a comma list is solid and has no comma. */
  predicate IsPiece(p: string) {
    Solid(p) && ',' !in p
  }

  lemma {:induction false} PiecesArePieces(parts: seq<string>)
    requires forall k :: 0 <= k < |parts| ==> ',' !in parts[k]
    ensures forall p :: p in NonEmptyTrimmed(parts) ==> IsPiece(p)
  {
    if parts != [] {
      PiecesArePieces(parts[1..]);
      TrimChars(parts[0]);
      TrimTwice(parts[0]);
      if Trim(parts[0]) != "" { TrimEnds(Trim(parts[0])); }
    }
  }

  lemma {:induction false} NonEmptyTrimmedConcat(a: seq<string>, b: seq<string>)
    ensures NonEmptyTrimmed(a + b) == NonEmptyTrimmed(a) + NonEmptyTrimmed(b)
  {
    if a == [] {
      assert a + b == b;
    } else {
      assert (a + b)[1..] == a[1..] + b;
      NonEmptyTrimmedConcat(a[1..], b);
    }
  }

  lemma CommaSpace(head: string, tail: string)
    ensures head + ", " + tail == head + ("," + (" " + tail))
  {
  }

  lemma PiecesCons(head: string, tail: string)
    requires IsPiece(head)
    ensures Pieces(head + ", " + tail) == [head] + Pieces(tail)
  {
    PlainPiece(head);
    SpacedPieces(tail);
    PiecesConcat(head, " " + tail);
    CommaSpace(head, tail);
  }

  lemma ConsAppend(s: seq<string>, t: seq<string>)
    requires s != []
    ensures s + t == [s[0]] + (s[1..] + t) && (s + t)[1..] == s[1..] + t
  {
  }

  /** Splitting a comma list gives its entries back, the last one in pieces if it has commas itself. */
  lemma {:induction false} PiecesSnoc(list: seq<string>, last: string)
    requires forall k :: 0 <= k < |list| ==> IsPiece(list[k])
    ensures Pieces(CommaList(list + [last])) == list + Pieces(last)
  {
    if list == [] {
      assert list + [last] == [last];
    } else {
      var tail := CommaList(list[1..] + [last]);
      ConsAppend(list, [last]);
      assert CommaList(list + [last]) == list[0] + ", " + tail;
      PiecesSnoc(list[1..], last);
      PiecesCons(list[0], tail);
      ConsAppend(list, Pieces(last));
    }
  }

  lemma PiecesOfInitLast(init: seq<string>, last: string)
    requires IsPiece(last) && forall k :: 0 <= k < |init| ==> IsPiece(init[k])
    ensures Pieces(CommaList(init + [last])) == init + [last]
  {
    PiecesSnoc(init, last);
    PlainPiece(last);
  }

  lemma InitLast(list: seq<string>)
    requires list != []
    ensures list == list[..|list| - 1] + [list[|list| - 1]]
  {
  }

  /** Splitting a comma list of pieces gives the list back. */
  lemma PiecesOfCommaList(list: seq<string>)
    requires list != [] && forall k :: 0 <= k < |list| ==> IsPiece(list[k])
    ensures Pieces(CommaList(list)) == list
  {
    InitLast(list);
    PiecesOfInitLast(list[..|list| - 1], list[|list| - 1]);
  }

  lemma SplitAtComma(a: string, b: string)
    ensures Split(a + ("," + b), ',') == Split(a, ',') + Split(b, ',')
  {
    assert a + ("," + b) == a + [','] + b;
    SplitAtSeparator(a, b, ',');
  }

  lemma PiecesConcat(a: string, b: string)
    ensures Pieces(a + ("," + b)) == Pieces(a) + Pieces(b)
  {
    SplitAtComma(a, b);
    NonEmptyTrimmedConcat(Split(a, ','), Split(b, ','));
  }

  lemma SpacedPieces(s: string)
    ensures Pieces(" " + s) == Pieces(s)
  {
    var x := Split(s, ',');
    assert (" " + s)[1..] == s;
    assert Split(" " + s, ',') == [[' '] + x[0]] + x[1..];
    assert ([' '] + x[0])[1..] == x[0];
    assert Trim([' '] + x[0]) == Trim(x[0]);
    assert ([[' '] + x[0]] + x[1..])[1..] == x[1..];
  }

  // ---------- reciprocal edges ----------

  /** A blocker's Blocks cell with this id on it. */
  function WithBlocked(cell: string, id: string): string {
    if Blank(cell) then id
    else
      var list := Pieces(cell);
      CommaList(if id in list then list else list + [id])
  }

  function Link(rows: seq<Row>, blocker: string, id: string): (out: seq<Row>)
    ensures |out| == |rows|
    ensures forall k :: 0 <= k < |rows| ==> out[k] == rows[k].(blocks := out[k].blocks)
  {
    var i := FindRow(rows, blocker);
    if i < |rows| then rows[i := rows[i].(blocks := Trim(WithBlocked(rows[i].blocks, id)))] else rows
  }

  function LinkAll(rows: seq<Row>, blockers: seq<string>, id: string): (out: seq<Row>)
    ensures |out| == |rows|
    ensures forall k :: 0 <= k < |rows| ==> out[k] == rows[k].(blocks := out[k].blocks)
    decreases |blockers|
  {
    if blockers == [] then rows else LinkAll(Link(rows, blockers[0], id), blockers[1..], id)
  }

  // ---------- add ----------

  /** `opts.x || fallback`: an omitted or empty option falls through. */
  function Or(option: Option<string>, fallback: string): string {
    if option.Some? && option.value != "" then option.value else fallback
  }

  function OrText(text: string, fallback: string): string {
    if text != "" then text else fallback
  }

  /** What a cell made from this value reads back as. */
  function Shown(value: string): string {
    Trim(OrText(value, SENTINEL))
  }

  /** Descriptions longer than MAX_DESC characters are cut to fit the suffix. */
  function ShortDescription(text: string): string {
    if |text| > MAX_DESC then text[..MAX_DESC - |DESC_SUFFIX|] + DESC_SUFFIX else text
  }

  const COLUMNS := ["ID", "Status", "Title", "Description", "Priority", "Owner", "Blocks", "Blocked By", "Plan File"]

  /** No existing row: every cell falls through to its default. */
  function NoRow(headers: seq<string>): Row {
    Row("", "", "", "", "", "", "", "", "", map h | h in headers && h !in COLUMNS :: "")
  }

  /** The row `add` writes: omitted fields come from the existing row, and Status always does. */
  function NewRow(id: string, opts: AddOptions, prior: Row): Row {
    Row(
      Shown(id),
      Shown(OrText(prior.status, BACKLOG)),
      Shown(Or(opts.title, OrText(prior.title, DEFAULT_TITLE))),
      Shown(if opts.description.Some? then ShortDescription(opts.description.value)
            else OrText(prior.description, SENTINEL)),
      Shown(Or(opts.priority, OrText(prior.priority, DEFAULT_PRIORITY))),
      Shown(Or(opts.owner, OrText(prior.owner, DEFAULT_OWNER))),
      Shown(Or(opts.blocks, OrText(prior.blocks, SENTINEL))),
      Shown(Or(opts.blockedBy, OrText(prior.blockedBy, SENTINEL))),
      Shown(Or(opts.plan, OrText(prior.planFile, SENTINEL))),
      map h | h in prior.extra :: Shown(prior.extra[h])
    )
  }

  /** What the order of the board depends on. */
  datatype Key<T> = Key(number: nat, id: T)

  function KeyOf(row: Row): Key<string> {
    Key(NumericId(row.id), row.id)
  }

  function Keys(rows: seq<Row>): (keys: seq<Key<string>>) {
    Map(rows, KeyOf)
  }

  /** The first place with a larger number, or the end. */
  function InsertionPoint<T>(keys: seq<Key<T>>, n: nat): (i: nat)
    ensures i <= |keys|
    ensures i < |keys| ==> keys[i].number > n
    ensures forall k :: 0 <= k < i ==> keys[k].number <= n
  {
    if keys == [] || keys[0].number > n then 0 else 1 + InsertionPoint(keys[1..], n)
  }

  function PlaceAfter(rows: seq<Row>, i: nat, n: nat): nat
    requires i <= |rows|
  {
    InsertionPoint(Keys(rows[i..]), n)
  }

  lemma PlaceStep(rows: seq<Row>, n: nat, i: nat)
    requires i <= |rows|
    ensures PlaceAfter(rows, i, n) ==
            if i < |rows| && NumericId(rows[i].id) <= n then 1 + PlaceAfter(rows, i + 1, n) else 0
  {
    if i < |rows| {
      assert rows[i..][1..] == rows[i + 1..];
      assert Keys(rows[i..])[1..] == Keys(rows[i + 1..]);
    }
  }

  /** Where add puts a row with this id. */
  function PlaceFor(rows: seq<Row>, id: string): (i: nat)
    ensures i <= |rows|
  {
    InsertionPoint(Keys(rows), NumericId(id))
  }

  function Upsert(headers: seq<string>, rows: seq<Row>, id: string, opts: AddOptions): seq<Row> {
    var i := FindRow(rows, id);
    if i < |rows| then rows[i := NewRow(id, opts, rows[i])]
    else
      InsertAt(rows, PlaceFor(rows, id), NewRow(id, opts, NoRow(headers)))
  }

  function ChosenId(rows: seq<Row>, opts: AddOptions): string {
    if opts.id.Some? && Trim(opts.id.value) != "" then Trim(opts.id.value) else GeneratedId(rows)
  }

  function NamedBlockers(opts: AddOptions): seq<string> {
    if opts.blockedBy.Some? then Pieces(opts.blockedBy.value) else []
  }

  /** The rows after a successful add. */
  function AddRows(headers: seq<string>, rows: seq<Row>, opts: AddOptions): seq<Row> {
    var id := ChosenId(rows, opts);
    LinkAll(Upsert(headers, rows, id, opts), NamedBlockers(opts), id)
  }

  // ---------- clean ----------

  function NotDone(rows: seq<Row>): seq<Row> {
    if rows == [] then []
    else if rows[0].status == DONE then NotDone(rows[1..])
    else [rows[0]] + NotDone(rows[1..])
  }

  function DoneIds(rows: seq<Row>): seq<string> {
    if rows == [] then []
    else if rows[0].status == DONE then [rows[0].id] + DoneIds(rows[1..])
    else DoneIds(rows[1..])
  }

  function Reverse(s: seq<string>): (r: seq<string>)
    ensures |r| == |s|
  {
    if s == [] then [] else Reverse(s[1..]) + [s[0]]
  }

  lemma {:induction false} ReverseSnoc(s: seq<string>, x: string)
    ensures Reverse(s + [x]) == [x] + Reverse(s)
  {
    if s != [] {
      assert (s + [x])[1..] == s[1..] + [x];
      ReverseSnoc(s[1..], x);
    }
  }

  // ---------- the document ----------

  method FindPlace(rows: seq<Row>, id: string) returns (i: nat)
    ensures i == PlaceFor(rows, id)
  {
    var n := NumericId(id);
    i := 0;
    assert rows[0..] == rows;
    while i < |rows| && NumericId(rows[i].id) <= n
      invariant 0 <= i <= |rows|
      invariant i + PlaceAfter(rows, i, n) == PlaceAfter(rows, 0, n)
    {
      PlaceStep(rows, n, i);
      i := i + 1;
    }
    PlaceStep(rows, n, i);
  }

  class BoardDoc {
    var rows: seq<Row>
    const headers: seq<string>
    const statuses: seq<string>

    constructor (doc: Board)
      ensures rows == doc.rows && headers == doc.headers && statuses == doc.statuses
    {
      rows, headers, statuses := doc.rows, doc.headers, doc.statuses;
    }

    method NextId() returns (id: string)
      ensures id == GeneratedId(rows)
    {
      var max := 0;
      var i := |rows|;
      assert rows[i..] == [];
      while i > 0
        invariant 0 <= i <= |rows|
        invariant max == MaxId(rows[i..])
      {
        i := i - 1;
        assert rows[i..][1..] == rows[i + 1..];
        var n := NumericId(rows[i].id);
        if n > max { max := n; }
      }
      assert rows[0..] == rows;
      id := "T" + Decimal(max + 1);
    }

    /** Replace the row with this id, or insert a new one before the first larger numeric id. */
    method PutRow(id: string, opts: AddOptions) returns (isUpdate: bool)
      modifies this`rows
      ensures rows == Upsert(headers, old(rows), id, opts) && isUpdate == Known(old(rows), id)
    {
      var existing := FindRow(rows, id);
      isUpdate := existing < |rows|;
      if isUpdate {
        rows := rows[existing := NewRow(id, opts, rows[existing])];
        return;
      }
      var i := FindPlace(rows, id);
      rows := InsertAt(rows, i, NewRow(id, opts, NoRow(headers)));
    }

    /** The id goes onto the Blocks cell of each blocker the board knows. */
    method LinkBlockers(blockers: seq<string>, id: string)
      modifies this`rows
      ensures rows == LinkAll(old(rows), blockers, id)
    {
      var b := 0;
      assert blockers[0..] == blockers;
      while b < |blockers|
        invariant 0 <= b <= |blockers|
        invariant LinkAll(rows, blockers[b..], id) == LinkAll(old(rows), blockers, id)
      {
        assert blockers[b..][1..] == blockers[b + 1..];
        var at := FindRow(rows, blockers[b]);
        if at < |rows| {
          rows := rows[at := rows[at].(blocks := Trim(WithBlocked(rows[at].blocks, id)))];
        }
        b := b + 1;
      }
    }

    /**
     opAdd: an upsert at the sorted place, then the reciprocal Blocks edges of the named blockers. When the Blocks
     column is missing the row is already written; the caller then throws the document away unsaved.
     */
    method Add(opts: AddOptions) returns (r: AddResult)
      modifies this`rows
      ensures r.InvalidPriority? <==> opts.priority.Some? && opts.priority.value !in ["High", "Medium", "Low"]
      ensures r == MissingColumn("ID") <==> !r.InvalidPriority? && "ID" !in headers
      ensures r == MissingColumn("Blocks") <==>
              !r.InvalidPriority? && "ID" in headers && "Blocks" !in headers && NamedBlockers(opts) != []
      ensures r.MissingColumn? ==> r.name in ["ID", "Blocks"]
      ensures r == MissingColumn("Blocks") ==> rows == Upsert(headers, old(rows), ChosenId(old(rows), opts), opts)
      ensures r.InvalidPriority? || r == MissingColumn("ID") ==> rows == old(rows)
      ensures r.Added? ==> rows == AddRows(headers, old(rows), opts)
      ensures r.Added? ==> r.id == ChosenId(old(rows), opts) && r.updated == Known(old(rows), r.id)
    {
      if opts.priority.Some? && opts.priority.value !in VALID_PRIORITIES { return InvalidPriority; }
      if "ID" !in headers { return MissingColumn("ID"); }
      var id := if opts.id.Some? then Trim(opts.id.value) else "";
      if id == "" { id := NextId(); }
      var isUpdate := PutRow(id, opts);
      var blockers := NamedBlockers(opts);
      if blockers != [] {
        if "Blocks" !in headers { return MissingColumn("Blocks"); }
        LinkBlockers(blockers, id);
      }
      r := Added(id, isUpdate);
    }

    /** opStatus. */
    method SetStatusOf(id: string, status: string) returns (ok: bool)
      modifies this`rows
      ensures ok <==> status in statuses && Known(old(rows), id) && "Status" in headers
      ensures rows == if ok then SetStatus(Board(headers, statuses, old(rows)), id, status).rows else old(rows)
    {
      var i := FindRow(rows, id);
      ok := status in statuses && i < |rows| && "Status" in headers;
      if ok { rows := rows[i := rows[i].(status := status)]; }
    }

    /** opRemove. */
    method Remove(id: string) returns (ok: bool)
      modifies this`rows
      ensures ok <==> Known(old(rows), id)
      ensures rows == if ok then RemoveRow(old(rows), id) else old(rows)
    {
      var i := FindRow(rows, id);
      ok := i < |rows|;
      if ok { rows := RemoveAt(rows, i); }
    }

    /** opClean, from the last row to the first: a removal moves only rows that were looked at already. */
    method Clean() returns (removed: seq<string>)
      modifies this`rows
      ensures rows == NotDone(old(rows)) && removed == DoneIds(old(rows))
    {
      var backwards: seq<string> := [];
      ghost var rows0 := rows;
      var i := |rows|;
      assert rows0[..i] == rows0 && rows0[i..] == [];
      while i > 0
        invariant 0 <= i <= |rows0|
        invariant rows == rows0[..i] + NotDone(rows0[i..])
        invariant Reverse(backwards) == DoneIds(rows0[i..])
      {
        i := i - 1;
        assert rows0[i..] == [rows0[i]] + rows0[i + 1..];
        if rows[i].status == DONE {
          ReverseSnoc(backwards, rows[i].id);
          backwards := backwards + [rows[i].id];
          rows := RemoveAt(rows, i);
        }
      }
      assert rows0[0..] == rows0;
      removed := Reverse(backwards);
    }
  }

  function RemoveRow(rows: seq<Row>, id: string): seq<Row>
    requires Known(rows, id)
  {
    RemoveAt(rows, FindRow(rows, id))
  }

  // ---------- what every operation keeps ----------

  /** Keys are in numeric order and no id occurs twice. */
  predicate TidyKeys<T(==)>(keys: seq<Key<T>>) {
    forall i, j :: 0 <= i < j < |keys| ==> keys[i].number <= keys[j].number && keys[i].id != keys[j].id
  }

  predicate Tidy(rows: seq<Row>) {
    TidyKeys(Keys(rows))
  }

  /** Tidy says that rows are sorted by numeric id and no id occurs twice. */
  lemma TidyMeans(rows: seq<Row>)
    ensures Tidy(rows) <==> forall i, j :: 0 <= i < j < |rows| ==>
              NumericId(rows[i].id) <= NumericId(rows[j].id) && rows[i].id != rows[j].id
  {
    forall k | 0 <= k < |rows|
      ensures Keys(rows)[k] == KeyOf(rows[k])
    {
      MapAt(rows, KeyOf, k);
    }
  }

  /** So on a tidy board every row is the first with its id. */
  lemma TidyRowsAreFirst(rows: seq<Row>)
    requires Tidy(rows)
    ensures AllFirst(rows)
  {
    TidyMeans(rows);
  }

  lemma {:induction false} SameKeys(a: seq<Row>, b: seq<Row>)
    requires |a| == |b| && forall k :: 0 <= k < |a| ==> b[k].id == a[k].id
    ensures Keys(a) == Keys(b)
  {
    if a != [] {
      SameKeys(a[1..], b[1..]);
    }
  }

  lemma ChosenIdIsTrimmed(rows: seq<Row>, opts: AddOptions)
    ensures var id := ChosenId(rows, opts); id != "" && Trim(id) == id && Shown(id) == id
  {
    if opts.id.Some? {
      TrimTwice(opts.id.value);
    }
    GeneratedIdNumber(rows);
  }

  lemma InsertKey<T>(keys: seq<Key<T>>, key: Key<T>, at: nat)
    requires TidyKeys(keys) && forall k :: 0 <= k < |keys| ==> keys[k].id != key.id
    requires at <= |keys| && (at < |keys| ==> keys[at].number > key.number)
    requires forall k :: 0 <= k < at ==> keys[k].number <= key.number
    ensures TidyKeys(InsertAt(keys, at, key))
  {
    var out := InsertAt(keys, at, key);
    forall i, j | 0 <= i < j < |out|
      ensures out[i].number <= out[j].number && out[i].id != out[j].id
    {
      if i < at {
        assert out[i] == keys[i];
      } else if i == at {
        assert keys[at].number <= keys[j - 1].number;
      } else {
        assert out[i] == keys[i - 1] && out[j] == keys[j - 1];
      }
    }
  }

  lemma InsertTidy(rows: seq<Row>, row: Row)
    requires Tidy(rows) && !Known(rows, row.id)
    ensures Tidy(InsertAt(rows, PlaceFor(rows, row.id), row))
  {
    var at, keys := PlaceFor(rows, row.id), Keys(rows);
    forall k | 0 <= k < |keys|
      ensures keys[k].id != row.id
    {
      MapAt(rows, KeyOf, k);
    }
    InsertKey(keys, KeyOf(row), at);
    MapInsert(rows, KeyOf, at, row);
  }

  lemma UpsertTidy(headers: seq<string>, rows: seq<Row>, id: string, opts: AddOptions)
    requires Tidy(rows) && Shown(id) == id
    ensures Tidy(Upsert(headers, rows, id, opts))
  {
    if Known(rows, id) {
      SameKeys(rows, Upsert(headers, rows, id, opts));
    } else {
      InsertTidy(rows, NewRow(id, opts, NoRow(headers)));
    }
  }

  /** The board operations, as values. */
  datatype Op = OpAdd(opts: AddOptions) | OpStatus(id: string, status: string) | OpRemove(id: string) | OpClean

  function ApplyOp(headers: seq<string>, rows: seq<Row>, op: Op): seq<Row> {
    match op
    case OpAdd(opts) => AddRows(headers, rows, opts)
    case OpStatus(id, status) => SetStatus(Board(headers, [], rows), id, status).rows
    case OpRemove(id) => if Known(rows, id) then RemoveRow(rows, id) else rows
    case OpClean => NotDone(rows)
  }

  function ApplyAll(headers: seq<string>, rows: seq<Row>, ops: seq<Op>): seq<Row>
    decreases |ops|
  {
    if ops == [] then rows else ApplyAll(headers, ApplyOp(headers, rows, ops[0]), ops[1..])
  }

  lemma {:induction false} KeysOfNotDone(rows: seq<Row>)
    ensures forall key :: key in Keys(NotDone(rows)) ==> key in Keys(rows)
  {
    if rows != [] {
      KeysOfNotDone(rows[1..]);
      if rows[0].status != DONE { KeysCons(rows[0], NotDone(rows[1..])); }
    }
  }

  lemma KeysCons(row: Row, rest: seq<Row>)
    ensures Keys([row] + rest) == [KeyOf(row)] + Keys(rest)
  {
    assert ([row] + rest)[1..] == rest;
  }

  lemma TidyCons<T>(keys: seq<Key<T>>, rest: seq<Key<T>>)
    requires TidyKeys(keys) && keys != [] && TidyKeys(rest) && forall key :: key in rest ==> key in keys[1..]
    ensures TidyKeys([keys[0]] + rest)
  {
    forall k | 0 <= k < |rest|
      ensures keys[0].number <= rest[k].number && keys[0].id != rest[k].id
    {
      assert rest[k] in keys[1..];
    }
  }

  lemma {:induction false} CleanTidy(rows: seq<Row>)
    requires Tidy(rows)
    ensures Tidy(NotDone(rows))
  {
    if rows != [] {
      var keys, rest := Keys(rows), NotDone(rows[1..]);
      assert keys[1..] == Keys(rows[1..]);
      CleanTidy(rows[1..]);
      KeysOfNotDone(rows[1..]);
      TidyCons(keys, Keys(rest));
      KeysCons(rows[0], rest);
    }
  }

  /** clean removes the Done rows and no other, and keeps the order of the rest. */
  lemma {:induction false} CleanRemovesDone(rows: seq<Row>)
    ensures forall r :: r in NotDone(rows) <==> r in rows && r.status != DONE
    ensures |NotDone(rows)| + |DoneIds(rows)| == |rows|
  {
    if rows != [] {
      assert rows == [rows[0]] + rows[1..];
      CleanRemovesDone(rows[1..]);
    }
  }

  lemma AddTidy(headers: seq<string>, rows: seq<Row>, opts: AddOptions)
    requires Tidy(rows)
    ensures Tidy(AddRows(headers, rows, opts))
  {
    var id := ChosenId(rows, opts);
    ChosenIdIsTrimmed(rows, opts);
    UpsertTidy(headers, rows, id, opts);
    SameKeys(Upsert(headers, rows, id, opts), AddRows(headers, rows, opts));
  }

  lemma RemoveTidy(rows: seq<Row>, id: string)
    requires Tidy(rows) && Known(rows, id)
    ensures Tidy(RemoveRow(rows, id))
  {
    var i, keys := FindRow(rows, id), Keys(rows);
    MapRemove(rows, KeyOf, i);
    RemoveKey(keys, i);
  }

  lemma RemoveKey<T>(keys: seq<Key<T>>, i: nat)
    requires TidyKeys(keys) && i < |keys|
    ensures TidyKeys(RemoveAt(keys, i))
  {
  }

  lemma OpTidy(headers: seq<string>, rows: seq<Row>, op: Op)
    requires Tidy(rows)
    ensures Tidy(ApplyOp(headers, rows, op))
  {
    match op
    case OpAdd(opts) => AddTidy(headers, rows, opts);
    case OpStatus(id, status) => SameKeys(rows, ApplyOp(headers, rows, op));
    case OpRemove(id) => if Known(rows, id) { RemoveTidy(rows, id); }
    case OpClean => CleanTidy(rows);
  }

  /** Any sequence of operations keeps rows sorted by numeric id and ids unique. */
  lemma {:induction false} OpsKeepTidy(headers: seq<string>, rows: seq<Row>, ops: seq<Op>)
    requires Tidy(rows)
    ensures Tidy(ApplyAll(headers, rows, ops))
    decreases |ops|
  {
    if ops != [] {
      OpTidy(headers, rows, ops[0]);
      OpsKeepTidy(headers, ApplyOp(headers, rows, ops[0]), ops[1..]);
    }
  }
}
