/** The `subdex_block` bookkeeping table as a value: upsert, prune, roll back,
    and the shape (one linked interval of heights) every operation keeps. */
module BlockTable {
  import opened Prelude
  import opened Chain

  datatype Row = Row(hash: string, parent: string, timestamp: Option<int>, specVersion: u32)

  type Rows = map<u32, Row>

  function RowOf(b: Block): Row {
    Row(b.hash, b.parent,
        match b.timestamp case None => None case Some(t) => Some(AsI64(t)),
        b.specVersion)
  }

  /** The row records the block: its hash and parent, its spec version, and the time
      it states, if any, as the signed integer that has its low 64 bits. */
  ghost predicate Describes(row: Row, b: Block) {
    && row.hash == b.hash && row.parent == b.parent && row.specVersion == b.specVersion
    && row.timestamp.Some? == b.timestamp.Some?
    && (b.timestamp.Some? ==>
          && (b.timestamp.value <= 0x7FFF_FFFF_FFFF_FFFF ==> row.timestamp.value == b.timestamp.value)
          && -0x8000_0000_0000_0000 <= row.timestamp.value <= 0x7FFF_FFFF_FFFF_FFFF
          && (row.timestamp.value - b.timestamp.value) % 0x1_0000_0000_0000_0000 == 0)
  }

  lemma RowDescribes(b: Block)
    ensures Describes(RowOf(b), b)
  {
  }

  // ---- Operations ----

  function Prune(rows: Rows, below: int): Rows {
    map h: u32 | h in rows && below <= h :: rows[h]
  }

  /** The lowest height kept after the cursor reaches `height`. */
  function PruneFloor(height: u32, retention: u32): u32 {
    if retention > 0 then SatSub(height, retention) else 0
  }

  function SetCursor(rows: Rows, b: Block, retention: u32): Rows {
    var up := rows[b.number := RowOf(b)];
    if retention > 0 then
      var below := SatSub(b.number, retention);
      if below > 0 then Prune(up, below) else up
    else up
  }

  /** Set the cursor to each block of a batch in turn. */
  function SetAll(rows: Rows, bs: seq<Block>, retention: u32): Rows {
    if |bs| == 0 then rows
    else SetCursor(SetAll(rows, bs[..|bs| - 1], retention), bs[|bs| - 1], retention)
  }

  /** Add a batch with no pruning at all. */
  function AddAll(rows: Rows, bs: seq<Block>): Rows {
    if |bs| == 0 then rows
    else AddAll(rows, bs[..|bs| - 1])[bs[|bs| - 1].number := RowOf(bs[|bs| - 1])]
  }

  function RollbackTo(rows: Rows, height: int): Rows {
    map h: u32 | h in rows && h <= height :: rows[h]
  }

  /** The rows a chain would have in heights `[lo, next)`. */
  function Window(chain: seq<Block>, lo: int, next: int): Rows {
    map h: u32 | lo <= h < next && h < |chain| :: RowOf(chain[h])
  }

  // ---- Shape ----

  /** The stored heights are exactly `[lo, next)`. */
  ghost predicate Spans(rows: Rows, lo: int, next: int) {
    lo <= next && forall h: u32 :: h in rows <==> lo <= h < next
  }

  ghost predicate Contiguous(rows: Rows) {
    exists lo, next :: Spans(rows, lo, next)
  }

  /** Each row's parent hash is the hash of the row just below it. */
  ghost predicate Linked(rows: Rows) {
    forall g: u32, h: u32 :: g in rows && h in rows && h == g + 1 ==> rows[h].parent == rows[g].hash
  }

  ghost predicate IsHighest(keys: set<u32>, c: u32) {
    c in keys && forall h: u32 :: h in keys ==> h <= c
  }

  lemma {:induction false} HasHighest(keys: set<u32>)
    requires keys != {}
    ensures exists c: u32 :: IsHighest(keys, c)
  {
    var k :| k in keys;
    var rest := keys - {k};
    assert forall h: u32 :: h in keys ==> h == k || h in rest;
    if rest == {} {
      assert IsHighest(keys, k);
    } else {
      HasHighest(rest);
      var c: u32 :| IsHighest(rest, c);
      assert IsHighest(keys, if c < k then k else c);
    }
  }

  /** The highest stored height: the progress cursor. */
  ghost function Cursor(rows: Rows): (c: Option<u32>)
    ensures rows == map[] ==> c == None
    ensures rows != map[] ==> c.Some? && IsHighest(rows.Keys, c.value)
  {
    if rows == map[] then None
    else
      HasHighest(rows.Keys);
      var c: u32 :| IsHighest(rows.Keys, c);
      Some(c)
  }

  lemma CursorOfSpan(rows: Rows, lo: int, next: int)
    requires Spans(rows, lo, next) && 0 <= lo && next <= MAX_U32 + 1
    ensures Cursor(rows) == if lo < next then Some(next - 1) else None
  {
    if lo < next {
      assert (next - 1) in rows;
    } else {
      assert rows == map[];
    }
  }

  // ---- Pruning closed form ----

  ghost predicate Ascending(bs: seq<Block>) {
    forall i, j :: 0 <= i <= j < |bs| ==> bs[i].number <= bs[j].number
  }

  /** Pruning after every block of an ascending batch is the same as adding the
      whole batch and pruning once at its last height. */
  lemma {:induction false} PruneOnceAtTheEnd(rows: Rows, bs: seq<Block>, retention: u32)
    requires 0 < |bs| && Ascending(bs)
    ensures SetAll(rows, bs, retention)
         == Prune(AddAll(rows, bs), PruneFloor(bs[|bs| - 1].number, retention))
  {
    var init, last := bs[..|bs| - 1], bs[|bs| - 1];
    if |init| == 0 {
      assert SetAll(rows, init, retention) == rows == AddAll(rows, init);
    } else {
      assert Ascending(init);
      PruneOnceAtTheEnd(rows, init, retention);
      assert init[|init| - 1].number <= last.number;
    }
  }

  /** The content of a table after a contiguous batch is added. */
  lemma {:induction false} AddAllAt(rows: Rows, bs: seq<Block>, from: int, h: u32)
    requires IsBatch(bs, from)
    ensures h in AddAll(rows, bs) <==> (h in rows || from <= h < from + |bs|)
    ensures from <= h < from + |bs| ==> AddAll(rows, bs)[h] == RowOf(bs[h - from])
    ensures h in rows && !(from <= h < from + |bs|) ==> AddAll(rows, bs)[h] == rows[h]
  {
    if |bs| > 0 {
      SliceIsBatch(bs, from, 0, |bs| - 1);
      assert bs[0..|bs| - 1] == bs[..|bs| - 1];
      AddAllAt(rows, bs[..|bs| - 1], from, h);
    }
  }

  /** The content of a table after the cursor is set to each block of a contiguous batch. */
  lemma {:induction false} SetAllAt(rows: Rows, bs: seq<Block>, from: int, retention: u32, h: u32)
    requires IsBatch(bs, from) && 0 < |bs|
    ensures var floor := PruneFloor(bs[|bs| - 1].number, retention);
            var after := SetAll(rows, bs, retention);
            && (h in after <==> floor <= h && (h in rows || from <= h < from + |bs|))
            && (h in after && from <= h < from + |bs| ==>
                  after[h] == RowOf(bs[h - from]) && Describes(after[h], bs[h - from]))
            && (h in after && !(from <= h < from + |bs|) ==> after[h] == rows[h])
  {
    PruneOnceAtTheEnd(rows, bs, retention);
    AddAllAt(rows, bs, from, h);
    if from <= h < from + |bs| {
      RowDescribes(bs[h - from]);
    }
  }

  // ---- What a commit keeps ----

  /** Appending a linked batch at the end of a linked interval gives a linked
      interval again, with its lower end raised to the prune floor. */
  lemma {:induction false} CommitKeepsSpan(rows: Rows, lo: int, next: int, bs: seq<Block>, retention: u32)
    requires Spans(rows, lo, next) && 0 <= lo && 0 < |bs| && IsBatch(bs, next)
    ensures var floor := PruneFloor(bs[|bs| - 1].number, retention);
            Spans(SetAll(rows, bs, retention), Max(lo, floor), next + |bs|)
  {
    forall h: u32 {
      SetAllAt(rows, bs, next, retention, h);
    }
    assert bs[|bs| - 1].number == next + |bs| - 1;
  }

  /** The parent check the engine makes before a commit. */
  predicate Diverged(rows: Rows, first: Block) {
    first.number > 0 && (first.number - 1) in rows && rows[first.number - 1].hash != first.parent
  }

  /** When is the table still hash-linked after a batch that passed the parent
      check is committed anywhere, pruning included? Exactly when the row just
      above the batch, if one is stored, already names the batch's last hash.
      Backfill commits at the top of the table, where there is no such row;
      a tip stream that re-delivers a lower height has to meet the condition. */
  lemma CommitStaysLinkedIff(rows: Rows, bs: seq<Block>, from: int, retention: u32)
    requires Linked(rows) && 0 < |bs| && IsBatch(bs, from) && !Diverged(rows, bs[0])
    ensures var last := bs[|bs| - 1];
            Linked(SetAll(rows, bs, retention))
            <==> (last.number < MAX_U32 && (last.number + 1) in rows ==> rows[last.number + 1].parent == last.hash)
  {
    hide SetAll;
    var last := bs[|bs| - 1];
    if last.number < MAX_U32 && (last.number + 1) in rows && rows[last.number + 1].parent != last.hash {
      var after := SetAll(rows, bs, retention);
      var above: u32 := last.number + 1;
      SetAllAt(rows, bs, from, retention, last.number);
      SetAllAt(rows, bs, from, retention, above);
      assert after[last.number] == RowOf(last) && after[above] == rows[above];
    } else {
      CommitStaysLinked(rows, bs, from, retention);
    }
  }

  lemma CommitStaysLinked(rows: Rows, bs: seq<Block>, from: int, retention: u32)
    requires Linked(rows) && 0 < |bs| && IsBatch(bs, from) && !Diverged(rows, bs[0])
    requires var last := bs[|bs| - 1];
             last.number < MAX_U32 && (last.number + 1) in rows ==> rows[last.number + 1].parent == last.hash
    ensures Linked(SetAll(rows, bs, retention))
  {
    hide SetAll;
    var after := SetAll(rows, bs, retention);
    forall g: u32, h: u32 | g in after && h in after && h == g + 1
      ensures after[h].parent == after[g].hash
    {
      SetAllAt(rows, bs, from, retention, g);
      SetAllAt(rows, bs, from, retention, h);
      if from <= h < from + |bs| && from <= g {
        assert bs[h - from].parent == bs[g - from].hash;
      }
    }
  }

  /** And when are the stored heights still one interval? Exactly when the batch
      leaves no gap: it starts no higher than the first free height (or pruning
      takes everything that was stored below it), and ends no lower than just
      below the lowest stored row. */
  lemma CommitStaysContiguousIff(rows: Rows, lo: int, next: int, bs: seq<Block>, from: int, retention: u32)
    requires Spans(rows, lo, next) && 0 <= lo < next <= MAX_U32 + 1 && 0 < |bs| && IsBatch(bs, from)
    ensures Contiguous(SetAll(rows, bs, retention))
       <==> (from <= next || next <= PruneFloor(bs[|bs| - 1].number, retention)) && lo <= from + |bs|
  {
    var after, end := SetAll(rows, bs, retention), from + |bs|;
    var floor := PruneFloor(bs[|bs| - 1].number, retention);
    assert bs[0].number == from && bs[|bs| - 1].number == end - 1;
    forall h: u32 ensures h in after <==> floor <= h && (lo <= h < next || from <= h < end) {
      SetAllAt(rows, bs, from, retention, h);
    }
    if (from <= next || next <= floor) && lo <= end {
      var bottom := if next <= floor then from else Min(lo, from);
      assert Spans(after, Max(floor, bottom), Max(next, end));
    } else {
      var last: u32, low: u32 := end - 1, next - 1;
      assert last in after;
      if end < lo {
        var gap: u32, high: u32 := end, lo;
        assert gap !in after && high in after;
      } else {
        var gap: u32 := next;
        assert gap !in after && low in after;
      }
    }
  }

  // ---- Rolling back and counting ----

  lemma RollbackKeepsSpan(rows: Rows, lo: int, next: int, f: int)
    requires Spans(rows, lo, next) && Linked(rows) && lo <= f + 1 <= next
    ensures Spans(RollbackTo(rows, f), lo, f + 1) && Linked(RollbackTo(rows, f))
  {
  }

  lemma {:induction false} IntervalSize(keys: set<u32>, lo: int, next: int)
    requires 0 <= lo <= next <= MAX_U32 + 1 && forall h: u32 :: h in keys <==> lo <= h < next
    ensures |keys| == next - lo
    decreases next - lo
  {
    if lo < next {
      var top: u32 := next - 1;
      IntervalSize(keys - {top}, lo, top);
    } else {
      assert keys == {};
    }
  }

  lemma SpanSize(rows: Rows, lo: int, next: int)
    requires Spans(rows, lo, next) && 0 <= lo && next <= MAX_U32 + 1
    ensures |rows| == next - lo
  {
    IntervalSize(rows.Keys, lo, next);
  }

  /** On a contiguous table the number of rows a rollback deletes is the
      distance from the cursor to the fork. */
  lemma RollbackDeletes(rows: Rows, lo: int, next: int, f: int)
    requires Spans(rows, lo, next) && Linked(rows) && 0 <= lo && next <= MAX_U32 + 1 && lo <= f + 1 <= next
    ensures |rows| - |RollbackTo(rows, f)| == next - 1 - f
  {
    RollbackKeepsSpan(rows, lo, next, f);
    SpanSize(rows, lo, next);
    SpanSize(RollbackTo(rows, f), lo, f + 1);
  }

  /** With pruning on, a contiguous table never exceeds `retention + 1` rows after a commit. */
  lemma CommitBoundsTable(rows: Rows, lo: int, next: int, bs: seq<Block>, retention: u32)
    requires Spans(rows, lo, next) && 0 <= lo && 0 < |bs| && IsBatch(bs, next) && 0 < retention
    ensures |SetAll(rows, bs, retention)| <= retention + 1
  {
    CommitKeepsSpan(rows, lo, next, bs, retention);
    var last := bs[|bs| - 1].number;
    assert last == next + |bs| - 1;
    SpanSize(SetAll(rows, bs, retention), Max(lo, PruneFloor(last, retention)), next + |bs|);
  }
}
