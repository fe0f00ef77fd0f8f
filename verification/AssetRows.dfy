/** The two-phase asset handler: rows extracted per block, written by one
    multi-row insert per batch. */
module AssetRows {
  import opened Prelude
  import opened Chain
  import opened Sql
  import opened Handlers

  datatype Row = Row(blockHeight: int, eventIndex: int, action: string, assetId: Option<int>, owner: Option<string>)

  // ---- Extraction ----

  function Action(pallet: string, name: string): Option<string> {
    if pallet == "Assets" && name == "Created" then Some("created")
    else if pallet == "Assets" && name == "Destroyed" then Some("destroyed")
    else None
  }

  function RowOfEvent(number: u32, ev: Event): Option<Row> {
    match Action(ev.pallet, ev.name)
    case None => None
    case Some(action) =>
      Some(Row(number, ev.index, action,
               match ev.assetId case Some(v) => Some(AsI64(v)) case None => None,
               ev.owner))
  }

  /** The rows of a block's events. */
  function RowsOfEvents(number: u32, events: seq<Event>): seq<Row> {
    if |events| == 0 then []
    else
      RowsOfEvents(number, events[..|events| - 1])
      + match RowOfEvent(number, events[|events| - 1]) case Some(row) => [row] case None => []
  }

  /** An asset was created or destroyed. */
  predicate IsLifecycle(ev: Event) {
    ev.pallet == "Assets" && (ev.name == "Created" || ev.name == "Destroyed")
  }

  /** The row says what happened where, and to what, with the asset id as the
      64-bit integer that has its low bits. */
  ghost predicate Records(row: Row, number: u32, ev: Event) {
    && row.blockHeight == number && row.eventIndex == ev.index && row.owner == ev.owner
    && (ev.name == "Created" <==> row.action == "created") && (ev.name == "Destroyed" <==> row.action == "destroyed")
    && row.assetId.Some? == ev.assetId.Some?
    && (row.assetId.Some? ==>
          -(MAX_U64 / 2) - 1 <= row.assetId.value <= MAX_U64 / 2
          && (row.assetId.value - ev.assetId.value) % (MAX_U64 + 1) == 0)
  }

  /** `rows` are those of the lifecycle events, one each, in event order: row `i`
      is the one of event `at[i]`. */
  ghost predicate Extracts(rows: seq<Row>, at: seq<nat>, number: u32, events: seq<Event>) {
    && |at| == |rows|
    && Increasing(at)
    && (forall k: nat :: k in at <==> k < |events| && IsLifecycle(events[k]))
    && (forall i :: 0 <= i < |rows| ==> at[i] < |events| && Records(rows[i], number, events[at[i]]))
  }

  lemma LowBits(n: nat)
    ensures -(MAX_U64 / 2) - 1 <= AsI64(n) <= MAX_U64 / 2 && (AsI64(n) - n) % (MAX_U64 + 1) == 0
  {
  }

  lemma RowOfEventRecords(number: u32, ev: Event)
    ensures RowOfEvent(number, ev).Some? <==> IsLifecycle(ev)
    ensures IsLifecycle(ev) ==> Records(RowOfEvent(number, ev).value, number, ev)
  {
    hide AsI64;
    if ev.assetId.Some? {
      LowBits(ev.assetId.value);
    }
  }

  lemma ExtractsStep(rows: seq<Row>, at: seq<nat>, number: u32, events: seq<Event>, i: nat)
    requires i < |events| && Extracts(rows, at, number, events[..i])
    ensures !IsLifecycle(events[i]) ==> Extracts(rows, at, number, events[..i + 1])
    ensures forall row :: IsLifecycle(events[i]) && Records(row, number, events[i]) ==>
              Extracts(rows + [row], at + [i], number, events[..i + 1])
  {
  }

  /** The rows of a block are exactly those of its lifecycle events, in order. */
  method RowsForBlock(block: Block) returns (rows: seq<Row>, ghost at: seq<nat>)
    ensures Extracts(rows, at, block.number, block.events)
    ensures rows == RowsOfEvents(block.number, block.events)
  {
    rows, at := [], [];
    assert Extracts(rows, at, block.number, block.events[..0]);
    hide Extracts, Records, IsLifecycle, AsI64;
    for i := 0 to |block.events|
      invariant Extracts(rows, at, block.number, block.events[..i])
      invariant rows == RowsOfEvents(block.number, block.events[..i])
    {
      assert block.events[..i + 1][..i] == block.events[..i];
      var ev := block.events[i];
      RowOfEventRecords(block.number, ev);
      ExtractsStep(rows, at, block.number, block.events, i);
      var action := Action(ev.pallet, ev.name);
      if action.None? {
        continue;
      }
      var assetId := match ev.assetId case Some(v) => Some(AsI64(v)) case None => None;
      rows := rows + [Row(block.number, ev.index, action.value, assetId, ev.owner)];
      at := at + [i];
    }
    assert block.events[..|block.events|] == block.events;
  }

  lemma {:induction false} RowsOfEventsExtract(number: u32, events: seq<Event>) returns (at: seq<nat>)
    ensures Extracts(RowsOfEvents(number, events), at, number, events)
  {
    at := [];
    if |events| > 0 {
      hide Extracts, Records, IsLifecycle;
      var i: nat := |events| - 1;
      at := RowsOfEventsExtract(number, events[..i]);
      RowOfEventRecords(number, events[i]);
      ExtractsStep(RowsOfEvents(number, events[..i]), at, number, events, i);
      assert events[..i + 1] == events;
      if IsLifecycle(events[i]) {
        at := at + [i];
      }
    }
  }

  lemma FrontIsBelow(xs: seq<nat>)
    requires Increasing(xs) && 0 < |xs|
    ensures var front, x := xs[..|xs| - 1], xs[|xs| - 1];
            Increasing(front) && forall k: nat :: (k in front <==> k in xs && k < x) && (k in xs ==> k <= x)
  {
  }

  lemma BothEmpty(xs: seq<nat>, ys: seq<nat>)
    requires forall k: nat :: k in xs <==> k in ys
    ensures |xs| == 0 <==> |ys| == 0
  {
    if 0 < |xs| {
      assert xs[0] in xs;
    }
    if 0 < |ys| {
      assert ys[0] in ys;
    }
  }

  lemma {:induction false} SameIncreasing(xs: seq<nat>, ys: seq<nat>)
    requires Increasing(xs) && Increasing(ys) && forall k: nat :: k in xs <==> k in ys
    ensures xs == ys
  {
    hide Increasing;
    BothEmpty(xs, ys);
    if 0 < |xs| {
      FrontIsBelow(xs);
      FrontIsBelow(ys);
      assert xs[|xs| - 1] in ys && ys[|ys| - 1] in xs;
      SameIncreasing(xs[..|xs| - 1], ys[..|ys| - 1]);
    }
  }

  /** There is only one such list of rows. */
  lemma ExtractsIsUnique(rows: seq<Row>, at: seq<nat>, rows': seq<Row>, at': seq<nat>, number: u32, events: seq<Event>)
    requires Extracts(rows, at, number, events) && Extracts(rows', at', number, events)
    ensures rows == rows'
  {
    hide AsI64;
    assert forall k: nat :: k in at <==> k in at';
    SameIncreasing(at, at');
    forall i | 0 <= i < |rows| ensures rows[i] == rows'[i] {
      assert at[i] in at && IsLifecycle(events[at[i]]);
      RecordsOnlyOne(rows[i], rows'[i], number, events[at[i]]);
    }
  }

  lemma RecordsOnlyOne(row: Row, row': Row, number: u32, ev: Event)
    requires IsLifecycle(ev) && Records(row, number, ev) && Records(row', number, ev)
    ensures row == row'
  {
  }

  /** The compute phase: the rows of every block of the batch. */
  function RowsOfBlocks(bs: seq<Block>): seq<Row> {
    if |bs| == 0 then []
    else RowsOfBlocks(bs[..|bs| - 1]) + RowsOfEvents(bs[|bs| - 1].number, bs[|bs| - 1].events)
  }

  // ---- The statement ----

  const TABLE := "asset_lifecycle"

  /** `INSERT INTO table (columns) VALUES (…), … ON CONFLICT (target) DO NOTHING`: the
      placeholder numbers of each tuple, and the bound values. */
  datatype Insert = Insert(
    table: string,
    columns: seq<string>,
    tuples: seq<seq<nat>>,
    target: seq<string>,
    binds: seq<Cell>)

  function Columns(): seq<string> {
    ["block_height", "event_index", "action", "asset_id", "owner"]
  }

  function Target(): seq<string> {
    ["block_height", "event_index"]
  }

  function OptionalInt(o: Option<int>): Cell {
    match o case Some(v) => Int(v) case None => Null
  }

  function OptionalText(o: Option<string>): Cell {
    match o case Some(v) => Text(v) case None => Null
  }

  function Cells(r: Row): seq<Cell> {
    [Int(r.blockHeight), Int(r.eventIndex), Text(r.action), OptionalInt(r.assetId), OptionalText(r.owner)]
  }

  /** The statement means these rows: tuple `i` names, in order, the bound cells of row `i`. */
  ghost predicate Means(stmt: Insert, rows: seq<Row>) {
    && stmt.table == TABLE && stmt.columns == Columns() && stmt.target == Target()
    && |stmt.tuples| == |rows|
    && forall i :: 0 <= i < |rows| ==> TupleMeans(stmt, i, rows[i])
  }

  ghost predicate TupleMeans(stmt: Insert, i: nat, row: Row)
    requires i < |stmt.tuples|
  {
    && |stmt.tuples[i]| == 5
    && forall k :: 0 <= k < 5 ==>
        1 <= stmt.tuples[i][k] <= |stmt.binds| && stmt.binds[stmt.tuples[i][k] - 1] == Cells(row)[k]
  }

  /** Number the placeholders of each tuple, then bind the rows' values in order. */
  method BuildInsert(rows: seq<Row>) returns (stmt: Insert)
    ensures Means(stmt, rows) && |stmt.binds| == 5 * |rows|
  {
    var tuples: seq<seq<nat>> := [];
    for i := 0 to |rows|
      invariant |tuples| == i
      invariant forall j :: 0 <= j < i ==> tuples[j] == [5 * j + 1, 5 * j + 2, 5 * j + 3, 5 * j + 4, 5 * j + 5]
    {
      var b := i * 5;
      tuples := tuples + [[b + 1, b + 2, b + 3, b + 4, b + 5]];
    }
    var binds: seq<Cell> := [];
    for i := 0 to |rows|
      invariant |binds| == 5 * i
      invariant forall j, k :: 0 <= j < i && 0 <= k < 5 ==> binds[5 * j + k] == Cells(rows[j])[k]
    {
      var r := rows[i];
      binds := binds + [Int(r.blockHeight), Int(r.eventIndex), Text(r.action), OptionalInt(r.assetId),
          OptionalText(r.owner)];
    }
    stmt := Insert(TABLE, Columns(), tuples, Target(), binds);
  }

  // ---- Its effect ----

  /** The cells a tuple's placeholders stand for. */
  function Bound(stmt: Insert, tuple: seq<nat>): seq<Cell> {
    seq(|tuple|, (k: int) requires 0 <= k < |tuple| =>
      if 1 <= tuple[k] <= |stmt.binds| then stmt.binds[tuple[k] - 1] else Null)
  }

  /** A record with each column set to the cell of its place. */
  function RecordOfCells(columns: seq<string>, cells: seq<Cell>): Record
    requires |columns| == |cells|
  {
    if |columns| == 0 then map[]
    else
      var n := |columns| - 1;
      RecordOfCells(columns[..n], cells[..n])[columns[n] := cells[n]]
  }

  function KeyIn(record: Record, target: seq<string>): seq<Cell> {
    seq(|target|, (i: int) requires 0 <= i < |target| => if target[i] in record then record[target[i]] else Null)
  }

  /** The row as it is stored. */
  function RecordOf(r: Row): Record {
    RecordOfCells(Columns(), Cells(r))
  }

  /** Insert one tuple of cells unless its key is taken. */
  function InsertCells(rel: Relation, columns: seq<string>, target: seq<string>, cells: seq<Cell>): Relation {
    if |cells| != |columns| then rel
    else
      var record := RecordOfCells(columns, cells);
      var key := KeyIn(record, target);
      if key in rel then rel else rel[key := record]
  }

  function InsertRow(rel: Relation, r: Row): Relation {
    InsertCells(rel, Columns(), Target(), Cells(r))
  }

  /** The statement's tuples, first to last. */
  function ExecuteUpTo(stmt: Insert, rel: Relation, n: nat): Relation
    requires n <= |stmt.tuples|
  {
    if n == 0 then rel
    else InsertCells(ExecuteUpTo(stmt, rel, n - 1), stmt.columns, stmt.target, Bound(stmt, stmt.tuples[n - 1]))
  }

  /** On the table that the statement names. */
  function Execute(stmt: Insert, t: Tables): Option<Tables> {
    if stmt.table !in t then None else Some(t[stmt.table := ExecuteUpTo(stmt, t[stmt.table], |stmt.tuples|)])
  }

  /** The per-row alternative: one single-row insert after another. */
  function InsertRows(rel: Relation, rows: seq<Row>): Relation {
    if |rows| == 0 then rel else InsertRow(InsertRows(rel, rows[..|rows| - 1]), rows[|rows| - 1])
  }

  lemma BoundIsCells(stmt: Insert, i: nat, row: Row)
    requires i < |stmt.tuples| && TupleMeans(stmt, i, row)
    ensures Bound(stmt, stmt.tuples[i]) == Cells(row)
  {
  }

  lemma {:induction false} UpToIsRows(stmt: Insert, rows: seq<Row>, rel: Relation, n: nat)
    requires Means(stmt, rows) && n <= |rows|
    ensures ExecuteUpTo(stmt, rel, n) == InsertRows(rel, rows[..n])
  {
    if n > 0 {
      hide Bound, Cells, InsertCells, TupleMeans, Columns, Target;
      UpToIsRows(stmt, rows, rel, n - 1);
      assert rows[..n][..n - 1] == rows[..n - 1];
      BoundIsCells(stmt, n - 1, rows[n - 1]);
    }
  }

  /** One multi-row insert has the effect of inserting its rows one at a time. */
  lemma BulkIsRowByRow(stmt: Insert, rows: seq<Row>, t: Tables)
    requires Means(stmt, rows)
    ensures Execute(stmt, t) == if TABLE in t then Some(t[TABLE := InsertRows(t[TABLE], rows)]) else None
  {
    if TABLE in t {
      UpToIsRows(stmt, rows, t[TABLE], |rows|);
      assert rows[..|rows|] == rows;
    }
  }

  function KeyOf(r: Row): seq<Cell> {
    [Int(r.blockHeight), Int(r.eventIndex)]
  }

  lemma RecordStep(columns: seq<string>, cells: seq<Cell>, n: nat)
    requires n < |columns| == |cells|
    ensures RecordOfCells(columns[..n + 1], cells[..n + 1])
         == RecordOfCells(columns[..n], cells[..n])[columns[n] := cells[n]]
  {
    assert columns[..n + 1][..n] == columns[..n] && cells[..n + 1][..n] == cells[..n];
  }

  /** Each value lands in the column of its name. */
  lemma RecordOfIs(r: Row)
    ensures RecordOf(r) == map[
              "block_height" := Int(r.blockHeight), "event_index" := Int(r.eventIndex), "action" := Text(r.action),
              "asset_id" := OptionalInt(r.assetId), "owner" := OptionalText(r.owner)]
    ensures KeyIn(RecordOf(r), Target()) == KeyOf(r)
  {
    var names, cells := Columns(), Cells(r);
    RecordStep(names, cells, 0);
    RecordStep(names, cells, 1);
    RecordStep(names, cells, 2);
    RecordStep(names, cells, 3);
    RecordStep(names, cells, 4);
    assert names[..5] == names && cells[..5] == cells;
  }

  /** Inserting a row stores its record under its key, unless that is taken. */
  lemma InsertRowIs(rel: Relation, r: Row)
    ensures InsertRow(rel, r) == if KeyOf(r) in rel then rel else rel[KeyOf(r) := RecordOf(r)]
  {
    hide RecordOfCells, KeyIn, KeyOf;
    RecordOfIs(r);
  }

  lemma {:induction false} InsertRowsAppend(rel: Relation, xs: seq<Row>, ys: seq<Row>)
    ensures InsertRows(rel, xs + ys) == InsertRows(InsertRows(rel, xs), ys)
  {
    if |ys| == 0 {
      assert xs + ys == xs;
    } else {
      var all := xs + ys;
      assert all[..|all| - 1] == xs + ys[..|ys| - 1];
      InsertRowsAppend(rel, xs, ys[..|ys| - 1]);
    }
  }

  /** Inserting keeps what was there, and takes every key it was given. */
  lemma {:induction false} InsertRowsKeeps(rel: Relation, rows: seq<Row>)
    ensures forall k :: k in rel ==> k in InsertRows(rel, rows) && InsertRows(rel, rows)[k] == rel[k]
    ensures forall i :: 0 <= i < |rows| ==> KeyOf(rows[i]) in InsertRows(rel, rows)
  {
    if |rows| > 0 {
      hide InsertRow, KeyOf, RecordOf;
      InsertRowsKeeps(rel, rows[..|rows| - 1]);
      InsertRowIs(InsertRows(rel, rows[..|rows| - 1]), rows[|rows| - 1]);
    }
  }

  lemma {:induction false} KnownRowsChangeNothing(rel: Relation, rows: seq<Row>)
    requires forall i :: 0 <= i < |rows| ==> KeyOf(rows[i]) in rel
    ensures InsertRows(rel, rows) == rel
  {
    if |rows| > 0 {
      hide InsertRow, KeyOf, RecordOf;
      KnownRowsChangeNothing(rel, rows[..|rows| - 1]);
      InsertRowIs(rel, rows[|rows| - 1]);
    }
  }

  /** Indexing the same blocks again changes nothing. */
  lemma ReindexingChangesNothing(rel: Relation, bs: seq<Block>)
    ensures InsertRows(InsertRows(rel, RowsOfBlocks(bs)), RowsOfBlocks(bs)) == InsertRows(rel, RowsOfBlocks(bs))
  {
    InsertRowsKeeps(rel, RowsOfBlocks(bs));
    KnownRowsChangeNothing(InsertRows(rel, RowsOfBlocks(bs)), RowsOfBlocks(bs));
  }

  // ---- Every event is stored ----

  ghost predicate DistinctKeys(rows: seq<Row>) {
    forall i, j :: 0 <= i < j < |rows| ==> KeyOf(rows[i]) != KeyOf(rows[j])
  }

  /** Only the keys of the rows are new. */
  lemma {:induction false} KeysOnly(rel: Relation, rows: seq<Row>, k: seq<Cell>)
    requires k in InsertRows(rel, rows)
    ensures k in rel || exists i :: 0 <= i < |rows| && k == KeyOf(rows[i])
  {
    if |rows| > 0 {
      hide InsertRow, KeyOf, RecordOf;
      var front, last := rows[..|rows| - 1], rows[|rows| - 1];
      InsertRowIs(InsertRows(rel, front), last);
      if k in InsertRows(rel, front) {
        KeysOnly(rel, front, k);
      }
    }
  }

  /** Rows with fresh, distinct keys are all stored. */
  lemma {:induction false} FreshRowIsStored(rel: Relation, rows: seq<Row>, i: nat)
    requires DistinctKeys(rows) && (forall j :: 0 <= j < |rows| ==> KeyOf(rows[j]) !in rel) && i < |rows|
    ensures KeyOf(rows[i]) in InsertRows(rel, rows) && InsertRows(rel, rows)[KeyOf(rows[i])] == RecordOf(rows[i])
  {
    hide InsertRow, KeyOf, RecordOf;
    var front, last := rows[..|rows| - 1], rows[|rows| - 1];
    InsertRowIs(InsertRows(rel, front), last);
    if KeyOf(last) in InsertRows(rel, front) {
      KeysOnly(rel, front, KeyOf(last));
      assert false;
    }
    if i < |front| {
      FreshRowIsStored(rel, front, i);
    }
  }

  /** The node numbers the events of a block. */
  ghost predicate DistinctIndices(events: seq<Event>) {
    forall i, j :: 0 <= i < j < |events| ==> events[i].index != events[j].index
  }

  lemma BlockRowsAre(b: Block)
    requires DistinctIndices(b.events)
    ensures var rows := RowsOfEvents(b.number, b.events);
            && DistinctKeys(rows) && (forall i :: 0 <= i < |rows| ==> rows[i].blockHeight == b.number)
            && forall k :: 0 <= k < |b.events| && IsLifecycle(b.events[k]) ==>
                 exists i :: 0 <= i < |rows| && Records(rows[i], b.number, b.events[k])
  {
    var at := RowsOfEventsExtract(b.number, b.events);
    var rows := RowsOfEvents(b.number, b.events);
    forall i, j | 0 <= i < j < |rows| ensures KeyOf(rows[i]) != KeyOf(rows[j]) {
      assert at[i] < at[j] < |b.events|;
    }
    forall k | 0 <= k < |b.events| && IsLifecycle(b.events[k])
      ensures exists i :: 0 <= i < |rows| && Records(rows[i], b.number, b.events[k])
    {
      assert k in at;
      var i :| 0 <= i < |at| && at[i] == k;
      assert Records(rows[i], b.number, b.events[k]);
    }
  }

  ghost predicate AllDistinct(bs: seq<Block>) {
    forall j :: 0 <= j < |bs| ==> DistinctIndices(bs[j].events)
  }

  /** The heights of the rows of a batch are its own. */
  lemma {:induction false} BatchHeights(bs: seq<Block>, from: int)
    requires IsBatch(bs, from) && AllDistinct(bs)
    ensures forall i :: 0 <= i < |RowsOfBlocks(bs)| ==> from <= RowsOfBlocks(bs)[i].blockHeight < from + |bs|
  {
    if |bs| > 0 {
      hide RowsOfEvents, DistinctIndices;
      BatchHeights(bs[..|bs| - 1], from);
      BlockRowsAre(bs[|bs| - 1]);
    }
  }

  /** Rows of different heights have different keys. */
  lemma DistinctTogether(front: seq<Row>, last: seq<Row>, height: int)
    requires DistinctKeys(front) && DistinctKeys(last)
    requires forall i :: 0 <= i < |front| ==> front[i].blockHeight < height
    requires forall i :: 0 <= i < |last| ==> last[i].blockHeight == height
    ensures DistinctKeys(front + last)
  {
  }

  lemma {:induction false} BatchKeysDistinct(bs: seq<Block>, from: int)
    requires IsBatch(bs, from) && AllDistinct(bs)
    ensures DistinctKeys(RowsOfBlocks(bs))
  {
    if |bs| > 0 {
      hide RowsOfEvents, DistinctIndices, DistinctKeys;
      var cs, b := bs[..|bs| - 1], bs[|bs| - 1];
      BatchKeysDistinct(cs, from);
      BatchHeights(cs, from);
      BlockRowsAre(b);
      DistinctTogether(RowsOfBlocks(cs), RowsOfEvents(b.number, b.events), b.number);
    } else {
      assert RowsOfBlocks(bs) == [];
    }
  }

  /** Every lifecycle event of a batch has a row. */
  lemma {:induction false} EventHasRow(bs: seq<Block>, j: nat, k: nat)
    requires AllDistinct(bs) && j < |bs| && k < |bs[j].events| && IsLifecycle(bs[j].events[k])
    ensures exists row :: row in RowsOfBlocks(bs) && Records(row, bs[j].number, bs[j].events[k])
  {
    hide IsLifecycle, Records, DistinctIndices, DistinctKeys, RowsOfEvents;
    var cs, b := bs[..|bs| - 1], bs[|bs| - 1];
    if j < |cs| {
      EventHasRow(cs, j, k);
      var row :| row in RowsOfBlocks(cs) && Records(row, bs[j].number, bs[j].events[k]);
      assert row in RowsOfBlocks(bs);
    } else {
      BlockRowsAre(b);
      var rows := RowsOfEvents(b.number, b.events);
      var i :| 0 <= i < |rows| && Records(rows[i], b.number, b.events[k]);
      assert rows[i] in RowsOfBlocks(bs);
    }
  }

  // ---- As a handler ----

  /** The most parameters one statement can bind; each row binds five. */
  const MAX_PARAMETERS := 65535

  predicate Fits(rows: seq<Row>) {
    5 * |rows| <= MAX_PARAMETERS
  }

  /** A prepared write: nothing for no rows, otherwise the one statement. */
  function WriteRows(rows: seq<Row>): Write {
    (t: Tables) =>
      if |rows| == 0 then Ok(t)
      else if !Fits(rows) || TABLE !in t then Err(Error.Handler("bulk insert asset_lifecycle"))
      else Ok(t[TABLE := InsertRows(t[TABLE], rows)])
  }

  /** The write phase carries out the statement it builds. */
  method PreparedWrite(rows: seq<Row>, t: Tables) returns (r: Result<Tables>)
    ensures r == WriteRows(rows)(t)
  {
    if |rows| == 0 {
      return Ok(t);
    }
    var stmt := BuildInsert(rows);
    BulkIsRowByRow(stmt, rows, t);
    var done := Execute(stmt, t);
    if |stmt.binds| > MAX_PARAMETERS || done.None? {
      return Err(Error.Handler("bulk insert asset_lifecycle"));
    }
    return Ok(done.value);
  }

  function BlockWrite(b: Block): Write {
    WriteRows(RowsOfEvents(b.number, b.events))
  }

  function AssetsHandler(): Handler {
    Handlers.Handler("assets", {TABLE}, BlockWrite, None, (bs: seq<Block>) => Ok(Some(WriteRows(RowsOfBlocks(bs)))))
  }

  lemma WriteRowsAppend(xs: seq<Row>, ys: seq<Row>)
    requires Fits(xs + ys)
    ensures Equiv(WriteRows(xs + ys), Then(WriteRows(xs), WriteRows(ys)))
  {
    hide InsertRows;
    if |xs| == 0 {
      assert xs + ys == ys;
    } else if |ys| == 0 {
      assert xs + ys == xs;
    } else {
      forall t: Tables | TABLE in t ensures Same(WriteRows(xs + ys)(t), Then(WriteRows(xs), WriteRows(ys))(t)) {
        InsertRowsAppend(t[TABLE], xs, ys);
        var u := t[TABLE := InsertRows(t[TABLE], xs)];
        assert WriteRows(xs)(t) == Ok(u);
        assert u[TABLE := InsertRows(u[TABLE], ys)] == t[TABLE := InsertRows(t[TABLE], xs + ys)];
      }
    }
  }

  lemma {:induction false} FittingBatchIsEachBlock(bs: seq<Block>)
    requires Fits(RowsOfBlocks(bs))
    ensures Equiv(WriteRows(RowsOfBlocks(bs)), EachBlock(BlockWrite, bs))
  {
    if |bs| > 0 {
      var cs, b := bs[..|bs| - 1], bs[|bs| - 1];
      FittingBatchIsEachBlock(cs);
      var xs, ys := RowsOfBlocks(cs), RowsOfEvents(b.number, b.events);
      WriteRowsAppend(xs, ys);
      ThenCongruent(WriteRows(xs), EachBlock(BlockWrite, cs), WriteRows(ys), WriteRows(ys));
      Chained(WriteRows(RowsOfBlocks(bs)), Then(WriteRows(xs), WriteRows(ys)), EachBlock(BlockWrite, bs));
    }
  }

  /** Some block has more rows than one statement can bind. */
  ghost predicate HasLargeBlock(bs: seq<Block>) {
    exists i :: 0 <= i < |bs| && !Fits(RowsOfEvents(bs[i].number, bs[i].events))
  }

  lemma {:induction false} SmallBlocksSucceed(bs: seq<Block>, t: Tables)
    requires !HasLargeBlock(bs) && TABLE in t
    ensures var r := EachBlock(BlockWrite, bs)(t); r.Ok? && TABLE in r.value
  {
    if |bs| > 0 {
      var cs := bs[..|bs| - 1];
      assert forall i :: 0 <= i < |cs| ==> cs[i] == bs[i];
      SmallBlocksSucceed(cs, t);
    }
  }

  /** Preparing a batch and writing it means `process_block` on each block exactly
      when the rows of the whole batch fit one statement, or those of some single
      block do not, and both fail. */
  lemma BatchIsEachBlockIff(bs: seq<Block>)
    ensures Equiv(WriteRows(RowsOfBlocks(bs)), EachBlock(BlockWrite, bs))
       <==> Fits(RowsOfBlocks(bs)) || HasLargeBlock(bs)
  {
    hide RowsOfBlocks, RowsOfEvents, InsertRows;
    if Fits(RowsOfBlocks(bs)) {
      FittingBatchIsEachBlock(bs);
    } else if HasLargeBlock(bs) {
      var i :| 0 <= i < |bs| && !Fits(RowsOfEvents(bs[i].number, bs[i].events));
      assert bs[..i + 1][..i] == bs[..i];
      forall t: Tables ensures Same(WriteRows(RowsOfBlocks(bs))(t), EachBlock(BlockWrite, bs)(t)) {
        EachPrefixFails(BlockWrite, bs, t, i + 1);
      }
    } else {
      var t: Tables := map[TABLE := map[]];
      SmallBlocksSucceed(bs, t);
      assert !Same(WriteRows(RowsOfBlocks(bs))(t), EachBlock(BlockWrite, bs)(t));
    }
  }

  function Created(n: nat): seq<Event>
    requires n <= MAX_U32
  {
    seq(n, (i: int) requires 0 <= i < n => Event(i, "Assets", "Created", None, None))
  }

  lemma {:induction false} CreatedHasRows(number: u32, n: nat)
    requires n <= MAX_U32
    ensures |RowsOfEvents(number, Created(n))| == n
  {
    if n > 0 {
      assert Created(n)[..n - 1] == Created(n - 1);
      CreatedHasRows(number, n - 1);
    }
  }

  lemma RowsOfTwo(a: Block, b: Block)
    ensures RowsOfBlocks([a, b]) == RowsOfEvents(a.number, a.events) + RowsOfEvents(b.number, b.events)
  {
    hide RowsOfEvents;
    assert [a, b][..1] == [a] && [a][..0] == [];
    assert RowsOfBlocks([a]) == RowsOfBlocks([]) + RowsOfEvents(a.number, a.events);
  }

  function FullBlock(): Block {
    Block(0, "a", "", None, 0, Created(13107))
  }

  function OneMore(): Block {
    Block(1, "b", "a", None, 0, Created(1))
  }

  /** A batch that fails although each of its blocks would succeed: together they
      have one row more than a statement can bind. */
  lemma BatchPastTheLimit()
    ensures var bs, t: Tables := [FullBlock(), OneMore()], map[TABLE := map[]];
            IsBatch(bs, 0) && BatchWrite(AssetsHandler(), bs)(t).Err?
                && EachBlock(AssetsHandler().processBlock, bs)(t).Ok?
  {
    hide RowsOfEvents, RowsOfBlocks, InsertRows, Created, EachBlock;
    CreatedHasRows(0, 13107);
    CreatedHasRows(1, 1);
    RowsOfTwo(FullBlock(), OneMore());
    SmallBlocksSucceed([FullBlock(), OneMore()], map[TABLE := map[]]);
  }

  lemma WriteRowsConfined(rows: seq<Row>)
    ensures Confined(WriteRows(rows), {TABLE})
  {
    hide InsertRows;
    forall t: Tables, u: Tables | AgreeOn(t, u, {TABLE})
      ensures WriteRows(rows)(t).Ok? == WriteRows(rows)(u).Ok?
      ensures WriteRows(rows)(t).Ok? ==> AgreeOn(WriteRows(rows)(t).value, WriteRows(rows)(u).value, {TABLE})
    {
      assert TABLE in {TABLE};
    }
  }

  /** The two-phase handler keeps the engine's contract: what its prepared bulk
      write does is what `process_block` on each block does, and it touches no
      table but its own. */
  lemma AssetsHandlerIsLawful()
    ensures Lawful(AssetsHandler())
  {
    hide RowsOfBlocks, RowsOfEvents, InsertRows;
    var h := AssetsHandler();
    forall b: Block ensures Confined(h.processBlock(b), h.owned) {
      WriteRowsConfined(RowsOfEvents(b.number, b.events));
    }
    forall bs: seq<Block> ensures Refines(BatchWrite(h, bs), EachBlock(h.processBlock, bs)) {
      var w := WriteRows(RowsOfBlocks(bs));
      if Fits(RowsOfBlocks(bs)) {
        FittingBatchIsEachBlock(bs);
        forall t: Tables | w(t).Ok? ensures EachBlock(BlockWrite, bs)(t) == w(t) {
          assert Same(w(t), EachBlock(BlockWrite, bs)(t));
        }
      }
    }
  }

  // ---- What is stored ----

  /** The record says, column by column, what the event says: where it happened,
      what happened, to which asset (by the 64-bit integer with the low bits of its
      id), and who the owner is. */
  ghost predicate Tells(record: Record, number: u32, ev: Event) {
    && record.Keys == {"block_height", "event_index", "action", "asset_id", "owner"}
    && record["block_height"] == Int(number) && record["event_index"] == Int(ev.index)
    && record["action"] == Text(if ev.name == "Created" then "created" else "destroyed")
    && (if ev.assetId.None? then record["asset_id"] == Null
        else record["asset_id"].Int?
             && -0x8000_0000_0000_0000 <= record["asset_id"].n <= 0x7FFF_FFFF_FFFF_FFFF
             && (record["asset_id"].n - ev.assetId.value) % 0x1_0000_0000_0000_0000 == 0)
    && record["owner"] == if ev.owner.None? then Null else Text(ev.owner.value)
  }

  lemma RecordTells(row: Row, number: u32, ev: Event)
    requires IsLifecycle(ev) && Records(row, number, ev)
    ensures Tells(RecordOf(row), number, ev) && KeyOf(row) == [Int(number), Int(ev.index)]
  {
    hide RecordOf, KeyIn;
    RecordOfIs(row);
  }

  /** Every row of a batch is that of an event. */
  lemma {:induction false} RowHasEvent(bs: seq<Block>, row: Row)
    requires row in RowsOfBlocks(bs)
    ensures exists j, k :: 0 <= j < |bs| && 0 <= k < |bs[j].events|
              && IsLifecycle(bs[j].events[k]) && Records(row, bs[j].number, bs[j].events[k])
  {
    hide IsLifecycle, Records, RowsOfEvents;
    var cs, b := bs[..|bs| - 1], bs[|bs| - 1];
    var rows := RowsOfEvents(b.number, b.events);
    if row in RowsOfBlocks(cs) {
      RowHasEvent(cs, row);
      var j, k :| 0 <= j < |cs| && 0 <= k < |cs[j].events|
        && IsLifecycle(cs[j].events[k]) && Records(row, cs[j].number, cs[j].events[k]);
      assert bs[j] == cs[j];
    } else {
      var i :| 0 <= i < |rows| && rows[i] == row;
      var at := RowsOfEventsExtract(b.number, b.events);
      assert at[i] in at;
    }
  }

  /** Indexing a new batch stores each of its lifecycle events, under its height and
      event index and with its values in the columns of their names; nothing else is
      new, and nothing that was there is touched. */
  lemma {:induction false} EveryEventIsStored(t: Tables, bs: seq<Block>, from: int)
    requires IsBatch(bs, from) && AllDistinct(bs) && Fits(RowsOfBlocks(bs)) && "asset_lifecycle" in t
    requires forall n, i :: from <= n < from + |bs| ==> [Int(n), Int(i)] !in t["asset_lifecycle"]
    ensures BatchWrite(AssetsHandler(), bs)(t).Ok?
    ensures var u := BatchWrite(AssetsHandler(), bs)(t).value;
            && u.Keys == t.Keys && (forall n :: n in t && n != "asset_lifecycle" ==> u[n] == t[n])
            && StoresEvents(t["asset_lifecycle"], u["asset_lifecycle"], bs)
  {
    hide RowsOfBlocks, InsertRows, StoresEvents, IsBatch, AllDistinct, BlockWrite;
    EventsAreStored(t["asset_lifecycle"], bs, from);
    FittingRowsAreWritten(RowsOfBlocks(bs), t);
    hide WriteRows;
    assert BatchWrite(AssetsHandler(), bs) == WriteRows(RowsOfBlocks(bs));
  }

  lemma FittingRowsAreWritten(rows: seq<Row>, t: Tables)
    requires Fits(rows) && TABLE in t
    ensures WriteRows(rows)(t) == Ok(t[TABLE := InsertRows(t[TABLE], rows)])
  {
    if |rows| == 0 {
      assert t[TABLE := t[TABLE]] == t;
    }
  }

  /** The rows that were there stay as they were. */
  ghost predicate Keeps(before: Relation, after: Relation) {
    forall key :: key in before ==> key in after && after[key] == before[key]
  }

  /** Each lifecycle event has a row that tells of it. */
  ghost predicate ToldBy(after: Relation, bs: seq<Block>) {
    forall j, k :: 0 <= j < |bs| && 0 <= k < |bs[j].events| && IsLifecycle(bs[j].events[k]) ==>
      var key := [Int(bs[j].number), Int(bs[j].events[k].index)];
      key in after && Tells(after[key], bs[j].number, bs[j].events[k])
  }

  ghost predicate IsEventKey(key: seq<Cell>, bs: seq<Block>) {
    exists j, k :: 0 <= j < |bs| && 0 <= k < |bs[j].events| && IsLifecycle(bs[j].events[k])
      && key == [Int(bs[j].number), Int(bs[j].events[k].index)]
  }

  ghost predicate StoresEvents(before: Relation, after: Relation, bs: seq<Block>) {
    && Keeps(before, after) && ToldBy(after, bs)
    && (forall key :: key in after && key !in before ==> IsEventKey(key, bs))
  }

  lemma EventsAreStored(rel: Relation, bs: seq<Block>, from: int)
    requires IsBatch(bs, from) && AllDistinct(bs)
    requires forall n, i :: from <= n < from + |bs| ==> [Int(n), Int(i)] !in rel
    ensures StoresEvents(rel, InsertRows(rel, RowsOfBlocks(bs)), bs)
  {
    hide IsLifecycle, Tells, AllDistinct, IsBatch, InsertRows, RowsOfBlocks, IsEventKey;
    var after := InsertRows(rel, RowsOfBlocks(bs));
    InsertRowsKeeps(rel, RowsOfBlocks(bs));
    forall j, k | 0 <= j < |bs| && 0 <= k < |bs[j].events| && IsLifecycle(bs[j].events[k])
      ensures var key := [Int(bs[j].number), Int(bs[j].events[k].index)];
              key in after && Tells(after[key], bs[j].number, bs[j].events[k])
    {
      EventIsStored(rel, bs, from, j, k);
    }
    forall key | key in after && key !in rel ensures IsEventKey(key, bs) {
      NewKeyIsEvent(rel, bs, key);
    }
  }

  lemma NewKeyIsEvent(rel: Relation, bs: seq<Block>, key: seq<Cell>)
    requires key in InsertRows(rel, RowsOfBlocks(bs)) && key !in rel
    ensures IsEventKey(key, bs)
  {
    hide IsLifecycle, Records, Tells, InsertRows, RowsOfBlocks, RecordOf, KeyOf;
    var rows := RowsOfBlocks(bs);
    KeysOnly(rel, rows, key);
    var i :| 0 <= i < |rows| && key == KeyOf(rows[i]);
    RowHasEvent(bs, rows[i]);
    var j, k :| 0 <= j < |bs| && 0 <= k < |bs[j].events|
      && IsLifecycle(bs[j].events[k]) && Records(rows[i], bs[j].number, bs[j].events[k]);
    RecordTells(rows[i], bs[j].number, bs[j].events[k]);
  }

  lemma EventIsStored(rel: Relation, bs: seq<Block>, from: int, j: nat, k: nat)
    requires IsBatch(bs, from) && AllDistinct(bs)
    requires forall n, i :: from <= n < from + |bs| ==> [Int(n), Int(i)] !in rel
    requires j < |bs| && k < |bs[j].events| && IsLifecycle(bs[j].events[k])
    ensures var key, after := [Int(bs[j].number), Int(bs[j].events[k].index)], InsertRows(rel, RowsOfBlocks(bs));
            key in after && Tells(after[key], bs[j].number, bs[j].events[k])
  {
    hide IsLifecycle, Records, Tells, AllDistinct, DistinctKeys, InsertRows, RowsOfBlocks, RecordOf;
    var rows := RowsOfBlocks(bs);
    BatchHeights(bs, from);
    BatchKeysDistinct(bs, from);
    EventHasRow(bs, j, k);
    var row :| row in rows && Records(row, bs[j].number, bs[j].events[k]);
    var i :| 0 <= i < |rows| && rows[i] == row;
    FreshRowIsStored(rel, rows, i);
    RecordTells(row, bs[j].number, bs[j].events[k]);
  }
}
