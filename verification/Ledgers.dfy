/** The durable state of an indexer with the history variables its whole-run
    properties speak of, the two ways the engine changes it, and the invariant
    both keep. */
module Ledgers {
  import opened Prelude
  import opened Chain
  import opened Sql
  import opened Handlers
  import opened BlockTable

  /** What stays fixed over all the sessions of one indexer. */
  datatype Setup = Setup(start: u32, retention: u32, maxDepth: u32, handlers: seq<Handlers.Handler>, initial: Tables)

  /** `rows` and `tables` are what the database holds. The rest is history:
      the stored heights are `[lo, next)`, no block at or above `peak` was ever
      committed, `applied` lists every committed block in commit order, and
      `rollbacks` counts the reorgs that were rolled back. */
  datatype Ledger = Ledger(
    rows: Rows,
    tables: Tables,
    lo: nat,
    next: nat,
    peak: nat,
    applied: seq<Block>,
    rollbacks: nat)

  function Fresh(s: Setup): Ledger {
    Ledger(map[], s.initial, s.start, s.start, s.start, [], 0)
  }

  /** Where a session that finds these rows starts. */
  ghost function Resume(rows: Rows, start: u32): u32 {
    match Cursor(rows) case Some(c) => SatAdd(c, 1) case None => start
  }

  /** A new session: an empty table restarts at the configured height. */
  function Reopen(l: Ledger, s: Setup): Ledger {
    if l.rows == map[] then l.(lo := s.start, next := s.start, peak := Max(l.peak, s.start)) else l
  }

  // ---- Committing ----

  ghost predicate CanCommit(l: Ledger, bs: seq<Block>) {
    0 < |bs| && IsBatch(bs, l.next) && l.next + |bs| <= MAX_U32 && !Diverged(l.rows, bs[0])
  }

  /** The ledger after the bookkeeping of a committed batch. */
  function Advance(l: Ledger, s: Setup, bs: seq<Block>, t: Tables): Ledger
    requires 0 < |bs|
  {
    var next := l.next + |bs|;
    Ledger(SetAll(l.rows, bs, s.retention), t,
           Max(l.lo, PruneFloor(bs[|bs| - 1].number, s.retention)), next,
           Max(l.peak, next), l.applied + bs, l.rollbacks)
  }

  /** One transaction: every handler over the batch, then the cursor for each block. */
  function Commit(l: Ledger, s: Setup, bs: seq<Block>): Result<Ledger>
    requires 0 < |bs|
  {
    match RunHandlers(s.handlers, bs)(l.tables)
    case Ok(t) => Ok(Advance(l, s, bs, t))
    case Err(e) => Err(e)
  }

  /** One transaction for one block: every handler, then the cursor. */
  function CommitBlock(l: Ledger, s: Setup, b: Block): Result<Ledger> {
    match RunBlock(s.handlers, b)(l.tables)
    case Ok(t) => Ok(Advance(l, s, [b], t))
    case Err(e) => Err(e)
  }

  /** Indexing one block at a time: the reference every batched run is measured against. */
  function CommitEach(l: Ledger, s: Setup, bs: seq<Block>): Result<Ledger> {
    if |bs| == 0 then Ok(l)
    else match CommitEach(l, s, bs[..|bs| - 1])
      case Ok(m) => CommitBlock(m, s, bs[|bs| - 1])
      case Err(e) => Err(e)
  }

  // ---- Rolling back ----

  ghost predicate CanRewind(l: Ledger, f: int) {
    0 <= f && l.lo <= f + 1 <= l.next
  }

  /** A handled reorg: the rows above the fork are deleted. The entity tables
      are left as they are. */
  function Rewind(l: Ledger, f: nat): Ledger {
    l.(rows := RollbackTo(l.rows, f), next := f + 1, rollbacks := l.rollbacks + 1)
  }

  /** One durable change the engine makes. */
  ghost predicate EngineStep(l: Ledger, l': Ledger, s: Setup) {
    || (exists bs: seq<Block> :: CanCommit(l, bs) && Commit(l, s, bs) == Ok(l'))
    || (exists f: nat :: CanRewind(l, f) && l' == Rewind(l, f))
  }

  // ---- The invariant ----

  /** The lowest height that pruning may have left when `peak - 1` is the highest ever committed. */
  function Floor(s: Setup, peak: nat): nat
    requires peak <= MAX_U32
  {
    if peak == 0 then s.start else Max(s.start, PruneFloor(peak - 1, s.retention))
  }

  /** The table is one hash-linked interval that ends at the cursor. Any linked,
      contiguous store is of this shape, whatever settings it was filled under. */
  ghost predicate ShapeInv(l: Ledger) {
    l.lo <= l.next <= l.peak <= MAX_U32 && Spans(l.rows, l.lo, l.next) && Linked(l.rows)
  }

  /** Under settings that never changed, the table holds every height from the
      retention floor of the highest block ever committed, and is bounded. */
  ghost predicate RetentionInv(l: Ledger, s: Setup)
    requires l.peak <= MAX_U32
  {
    && s.start <= l.lo <= Floor(s, l.peak)
    && (s.retention > 0 ==> l.next - l.lo <= s.retention + 1)
  }

  ghost predicate TableInv(l: Ledger, s: Setup) {
    ShapeInv(l) && RetentionInv(l, s)
  }

  /** Until the first rollback, what was applied is one linked run of blocks from
      the start height to the cursor, each height once, and the stored rows are its rows. */
  ghost predicate LogInv(l: Ledger, s: Setup)
    requires TableInv(l, s)
  {
    l.rollbacks == 0 ==>
      && l.peak == l.next == s.start + |l.applied|
      && IsBatch(l.applied, s.start)
      && (|l.applied| > 0 ==> l.lo < l.next)
      && RowsOf(l.rows, l.applied, s.start)
  }

  ghost predicate RowsOf(rows: Rows, log: seq<Block>, start: int) {
    forall h: u32 :: h in rows ==> 0 <= h - start < |log| && rows[h] == RowOf(log[h - start])
  }

  /** The entity tables are the handlers run over everything applied, batch by
      batch, for the batches that were committed. */
  ghost predicate TablesInv(l: Ledger, s: Setup) {
    exists batches: seq<seq<Block>> ::
        IsCut(batches, l.applied) && RunBatches(s.handlers, batches)(s.initial) == Ok(l.tables)
  }

  /** The log, cut into batches. */
  ghost predicate IsCut(batches: seq<seq<Block>>, log: seq<Block>) {
    Joined(batches) == log && forall i :: 0 <= i < |batches| ==> batches[i] != []
  }

  /** `peak` is one more than the highest height ever committed, and the start height
      before anything was. */
  ghost predicate PeakInv(l: Ledger, s: Setup) {
    && s.start <= l.peak && (forall i :: 0 <= i < |l.applied| ==> l.applied[i].number < l.peak)
    && (l.peak == s.start || exists i :: 0 <= i < |l.applied| && l.applied[i].number == l.peak - 1)
  }

  ghost predicate Inv(l: Ledger, s: Setup) {
    TableInv(l, s) && LogInv(l, s) && TablesInv(l, s) && PeakInv(l, s)
  }

  lemma FreshKeepsInv(s: Setup)
    ensures Inv(Fresh(s), s)
  {
    assert IsCut([], Fresh(s).applied);
  }

  lemma CommitKeepsShape(l: Ledger, s: Setup, bs: seq<Block>)
    requires ShapeInv(l) && CanCommit(l, bs) && Commit(l, s, bs).Ok?
    ensures ShapeInv(Commit(l, s, bs).value)
  {
    CommitKeepsSpan(l.rows, l.lo, l.next, bs, s.retention);
    CommitStaysLinked(l.rows, bs, l.next, s.retention);
  }

  lemma CommitKeepsInv(l: Ledger, s: Setup, bs: seq<Block>)
    requires Inv(l, s) && CanCommit(l, bs) && Commit(l, s, bs).Ok?
    ensures Inv(Commit(l, s, bs).value, s)
  {
    hide TablesInv, PeakInv;
    CommitKeepsShape(l, s, bs);
    var l' := Commit(l, s, bs).value;
    assert bs[|bs| - 1].number == l.next + |bs| - 1;
    assert TableInv(l', s);
    if l.rollbacks == 0 {
      LogGrowsLinked(l, s, bs);
      LogGrowsRows(l.rows, l.applied, s.start, bs, s.retention);
    }
    CommitKeepsTables(l, s, bs);
    CommitKeepsPeak(l, s, bs, l'.tables);
  }

  lemma CommitKeepsPeak(l: Ledger, s: Setup, bs: seq<Block>, t: Tables)
    requires PeakInv(l, s) && 0 < |bs| && IsBatch(bs, l.next)
    ensures PeakInv(Advance(l, s, bs, t), s)
  {
    hide SetAll, PruneFloor;
    var l', n := Advance(l, s, bs, t), |l.applied|;
    assert forall i :: 0 <= i < n ==> l'.applied[i] == l.applied[i];
    assert forall i :: n <= i < |l'.applied| ==> l'.applied[i] == bs[i - n];
    if l'.peak == l'.next {
      assert l'.applied[|l'.applied| - 1].number == l'.peak - 1;
    }
  }

  lemma CommitKeepsTables(l: Ledger, s: Setup, bs: seq<Block>)
    requires TablesInv(l, s) && 0 < |bs| && Commit(l, s, bs).Ok?
    ensures TablesInv(Commit(l, s, bs).value, s)
  {
    hide RunHandlers, SetAll, PruneFloor;
    var batches: seq<seq<Block>> :| IsCut(batches, l.applied)
        && RunBatches(s.handlers, batches)(s.initial) == Ok(l.tables);
    assert (batches + [bs])[..|batches|] == batches;
    assert IsCut(batches + [bs], Commit(l, s, bs).value.applied);
  }

  /** For independent handlers that is the handlers folded over the log block by block. */
  lemma TablesAreBlocks(l: Ledger, s: Setup)
    requires TablesInv(l, s) && Independent(s.handlers)
    ensures RunBlocks(s.handlers, l.applied)(s.initial) == Ok(l.tables)
  {
    hide Independent;
    var batches: seq<seq<Block>> :| IsCut(batches, l.applied)
        && RunBatches(s.handlers, batches)(s.initial) == Ok(l.tables);
    BatchesRefineBlocks(s.handlers, batches);
  }

  lemma LogGrowsLinked(l: Ledger, s: Setup, bs: seq<Block>)
    requires TableInv(l, s) && LogInv(l, s) && CanCommit(l, bs) && l.rollbacks == 0
    ensures IsBatch(l.applied + bs, s.start)
  {
  }

  lemma {:induction false} LogGrowsRows(rows: Rows, log: seq<Block>, start: int, bs: seq<Block>, retention: u32)
    requires RowsOf(rows, log, start) && IsBatch(bs, start + |log|) && 0 < |bs|
    ensures RowsOf(SetAll(rows, bs, retention), log + bs, start)
  {
    var after := SetAll(rows, bs, retention);
    forall h: u32 | h in after ensures 0 <= h - start < |log + bs| && after[h] == RowOf((log + bs)[h - start]) {
      SetAllAt(rows, bs, start + |log|, retention, h);
    }
  }

  lemma RewindKeepsInv(l: Ledger, s: Setup, f: nat)
    requires Inv(l, s) && CanRewind(l, f)
    ensures Inv(Rewind(l, f), s)
  {
  }

  lemma StepKeepsShape(l: Ledger, l': Ledger, s: Setup)
    requires ShapeInv(l) && EngineStep(l, l', s)
    ensures ShapeInv(l')
  {
    if bs: seq<Block> :| CanCommit(l, bs) && Commit(l, s, bs) == Ok(l') {
      CommitKeepsShape(l, s, bs);
    } else {
      var f: nat :| CanRewind(l, f) && l' == Rewind(l, f);
      RollbackKeepsSpan(l.rows, l.lo, l.next, f);
    }
  }

  lemma StepKeepsInv(l: Ledger, l': Ledger, s: Setup)
    requires Inv(l, s) && EngineStep(l, l', s)
    ensures Inv(l', s)
  {
    if bs: seq<Block> :| CanCommit(l, bs) && Commit(l, s, bs) == Ok(l') {
      CommitKeepsInv(l, s, bs);
    } else {
      var f: nat :| CanRewind(l, f) && l' == Rewind(l, f);
      RewindKeepsInv(l, s, f);
    }
  }

  lemma ReopenKeepsShape(l: Ledger, s: Setup)
    requires ShapeInv(l)
    ensures ShapeInv(Reopen(l, s))
    ensures Resume(l.rows, s.start) == Reopen(l, s).next
  {
    CursorOfSpan(l.rows, l.lo, l.next);
    if l.lo < l.next {
      assert (l.next - 1) in l.rows;
    }
  }

  lemma ReopenKeepsInv(l: Ledger, s: Setup)
    requires Inv(l, s)
    ensures Inv(Reopen(l, s), s)
    ensures Resume(l.rows, s.start) == Reopen(l, s).next
  {
    ReopenKeepsShape(l, s);
    assert l.lo < l.next ==> (l.next - 1) in l.rows;
  }

  /** The position in memory and the one a restart would compute agree exactly
      when a row is stored or the table is back at the start height. They part
      when a reorg empties a table that had been pruned. */
  lemma PositionIsDurableIff(l: Ledger, s: Setup)
    requires ShapeInv(l)
    ensures Resume(l.rows, s.start) == l.next <==> l.rows != map[] || l.lo == s.start
  {
    CursorOfSpan(l.rows, l.lo, l.next);
    if l.lo < l.next {
      assert (l.next - 1) in l.rows;
    } else {
      assert l.rows == map[];
    }
  }

  // ---- Batches against single blocks ----

  lemma AdvanceAgain(l: Ledger, s: Setup, cs: seq<Block>, b: Block, t: Tables, u: Tables)
    requires 0 < |cs| && IsBatch(cs + [b], l.next)
    ensures Advance(Advance(l, s, cs, t), s, [b], u) == Advance(l, s, cs + [b], u)
  {
    var bs := cs + [b];
    assert bs[..|bs| - 1] == cs;
    assert [b][..0] == [];
    var rows := SetAll(l.rows, cs, s.retention);
    assert SetAll(rows, [b], s.retention) == SetCursor(SetAll(rows, [], s.retention), b, s.retention);
    assert bs[|cs|].number == b.number && bs[|cs| - 1].number == cs[|cs| - 1].number;
    assert (l.applied + cs) + [b] == l.applied + bs;
  }

  lemma {:induction false} CommitEachAt(l: Ledger, s: Setup, bs: seq<Block>)
    requires 0 < |bs| && IsBatch(bs, l.next)
    ensures var t := RunBlocks(s.handlers, bs)(l.tables);
            var r := CommitEach(l, s, bs);
            r.Ok? == t.Ok? && (r.Ok? ==> r.value == Advance(l, s, bs, t.value))
  {
    var cs, b := bs[..|bs| - 1], bs[|bs| - 1];
    if |cs| == 0 {
      assert bs == [b];
      assert CommitEach(l, s, cs) == Ok(l);
    } else {
      assert cs + [b] == bs;
      SliceIsBatch(bs, l.next, 0, |bs| - 1);
      assert bs[0..|bs| - 1] == cs;
      CommitEachAt(l, s, cs);
      var t := RunBlocks(s.handlers, cs)(l.tables);
      if t.Ok? {
        var u := RunBlock(s.handlers, b)(t.value);
        if u.Ok? {
          AdvanceAgain(l, s, cs, b, t.value, u.value);
        }
      }
    }
  }

  /** One batch transaction leaves the same rows, entity tables and history as a
      transaction per block, for any number of handlers and blocks; when the
      handlers are exact on the batch it also fails exactly when that does. */
  lemma CommitIsCommitEach(l: Ledger, s: Setup, bs: seq<Block>)
    requires 0 < |bs| && IsBatch(bs, l.next) && Independent(s.handlers)
    ensures Commit(l, s, bs).Ok? ==> CommitEach(l, s, bs) == Commit(l, s, bs)
    ensures Exact(s.handlers, bs) ==> Same(Commit(l, s, bs), CommitEach(l, s, bs))
  {
    CommitEachAt(l, s, bs);
    BatchRefinesBlocks(s.handlers, bs);
    if Exact(s.handlers, bs) {
      HandlerMajorIsBlockMajor(s.handlers, bs);
      assert Same(RunHandlers(s.handlers, bs)(l.tables), RunBlocks(s.handlers, bs)(l.tables));
    }
  }

  lemma CommitEachUnfold(l: Ledger, s: Setup, bs: seq<Block>)
    requires 0 < |bs|
    ensures CommitEach(l, s, bs)
         == match CommitEach(l, s, bs[..|bs| - 1])
            case Ok(m) => CommitBlock(m, s, bs[|bs| - 1])
            case Err(e) => Err(e)
  {
  }

  lemma {:induction false} CommitEachAppend(l: Ledger, m: Ledger, s: Setup, front: seq<Block>, bs: seq<Block>)
    requires CommitEach(l, s, front) == Ok(m)
    ensures CommitEach(l, s, front + bs) == CommitEach(m, s, bs)
  {
    if |bs| == 0 {
      assert front + bs == front;
    } else {
      var all, cs := front + bs, bs[..|bs| - 1];
      assert all[..|all| - 1] == front + cs && all[|all| - 1] == bs[|bs| - 1];
      CommitEachAppend(l, m, s, front, cs);
      CommitEachUnfold(l, s, all);
      CommitEachUnfold(m, s, bs);
    }
  }
}
