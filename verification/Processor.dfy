/** The indexing engine: resume, backfill, reorg handling and atomic commits. */
module Processor {
  import opened Prelude
  import opened Chain
  import opened Sql
  import opened Handlers
  import opened BlockTable
  import opened ForkPoint
  import opened Ledgers
  import opened Convergence
  import opened Source
  import opened Store
  import opened TipStream

  datatype Config = Config(startHeight: u32, batchSize: u32, maxReorgDepth: u32)

  /** What the engine reports to its observer. */
  datatype Note =
    | Head(height: u32)
    | Fetched(count: nat)
    | ReorgSeen(fork: u32, depth: u32)
    | BatchCommitted(cursor: u32, count: nat)
    | Failed(phase: string)

  function Indices(n: nat): (s: set<nat>)
    ensures forall i: nat :: i in s <==> i < n
  {
    if n == 0 then {} else Indices(n - 1) + {n - 1}
  }

  class Processor {
    const source: DataSource
    const store: PgStore
    const handlers: seq<Handlers.Handler>
    const config: Config
    var notes: seq<Note>

    constructor (source: DataSource, store: PgStore, handlers: seq<Handlers.Handler>, config: Config)
      requires source.Valid()
      ensures Valid() && this.source == source && this.store == store && this.handlers == handlers
          && this.config == config
      ensures notes == []
    {
      this.source := source;
      this.store := store;
      this.handlers := handlers;
      this.config := config;
      this.notes := [];
    }

    ghost predicate Valid()
      reads source
    {
      source.Valid()
    }

    ghost predicate Reliable() {
      !source.flaky && !store.flaky
    }

    /** `cursor + 1`, or the configured start height on an empty table. */
    method ResumeHeight() returns (r: Result<u32>)
      ensures r.Ok? ==> r.value == Resume(store.rows, config.startHeight)
      ensures r.Err? ==> store.flaky
    {
      var c := store.Cursor();
      match c
      case Err(e) => return Err(e);
      case Ok(None) => return Ok(config.startHeight);
      case Ok(Some(id)) => return Ok(SatAdd(id.number, 1));
    }

    /** The canonical hash at `height`: a single-block fetch. */
    method CanonicalHashAt(height: u32) returns (r: Result<string>)
      requires Valid() && height < |source.chain|
      ensures r.Ok? ==> r.value == source.chain[height].hash
      ensures r.Err? ==> source.flaky && r.error.Source?
    {
      var batch := source.FetchBatch(height, height);
      match batch
      case Err(e) => return Err(e);
      case Ok(blocks) =>
        if |blocks| == 0 {
          return Err(Error.Source("source returned no block"));
        }
        return Ok(blocks[0].hash);
    }

    /** Walk down from `diverged` to the greatest height where the stored table and
        the canonical chain agree (or nothing is stored, or genesis), refusing a
        fork more than `maxReorgDepth` blocks below the cursor. */
    method FindForkPoint(diverged: u32, known: string) returns (r: Result<u32>)
      requires Valid() && diverged < |source.chain| && known == source.chain[diverged].hash
      ensures var c := BlockTable.Cursor(store.rows);
              var cursor := if c.Some? then c.value else 0;
              var deep := TooDeep(store.rows, source.chain, cursor, config.maxReorgDepth, diverged);
              && (r.Ok? ==> r.value == ForkOf(store.rows, source.chain, diverged) && !deep)
              && (r.Err? ==> if r.error.ReorgTooDeep?
                             then deep && r.error.max == config.maxReorgDepth
                                  && r.error.depth == cursor - Min(diverged, cursor - config.maxReorgDepth - 1)
                             else source.flaky || store.flaky)
    {
      var c := store.Cursor();
      if c.Err? {
        return Err(c.error);
      }
      var cursor := match c.value case Some(id) => id.number case None => 0;
      var max := config.maxReorgDepth;
      var height: u32 := diverged;
      var canonicalAtHeight := known;
      while true
        invariant height <= diverged && canonicalAtHeight == source.chain[height].hash
        invariant ForkOf(store.rows, source.chain, height) == ForkOf(store.rows, source.chain, diverged)
        invariant height < diverged && max != 0 ==> SatSub(cursor, height + 1) <= max
        decreases height
      {
        var depth := SatSub(cursor, height);
        if max != 0 && depth > max {
          return Err(ReorgTooDeep(depth, max));
        }
        var stored := store.HashAt(height);
        if stored.Err? {
          return Err(stored.error);
        }
        if stored.value.None? {
          return Ok(height);
        }
        if stored.value.value == canonicalAtHeight {
          return Ok(height);
        }
        if height == 0 {
          return Ok(0);
        }
        height := height - 1;
        var canonical := CanonicalHashAt(height);
        if canonical.Err? {
          return Err(canonical.error);
        }
        canonicalAtHeight := canonical.value;
      }
    }

    // ---- Committing ----

    /** Phase one: every handler's compute phase, finishing in any order. The first
        failure ends it; otherwise result `i` is handler `i`'s. */
    method PrepareAll(blocks: seq<Block>) returns (r: Result<seq<Option<Write>>>)
      ensures r.Ok? <==> forall i :: 0 <= i < |handlers| ==> handlers[i].prepare(blocks).Ok?
      ensures r.Ok? ==> |r.value| == |handlers|
      ensures r.Ok? ==> forall i :: 0 <= i < |handlers| ==> handlers[i].prepare(blocks).value == r.value[i]
      ensures r.Err? ==> exists i :: 0 <= i < |handlers| && handlers[i].prepare(blocks) == Err(r.error)
    {
      var slots: seq<Option<Write>> := seq(|handlers|, (i: int) => None);
      var running := Indices(|handlers|);
      while running != {}
        invariant |slots| == |handlers|
        invariant running <= Indices(|handlers|)
        invariant forall i :: 0 <= i < |handlers| && i !in running ==>
                    handlers[i].prepare(blocks).Ok? && handlers[i].prepare(blocks).value == slots[i]
        decreases running
      {
        var i :| i in running;
        var p := handlers[i].prepare(blocks);
        if p.Err? {
          return Err(p.error);
        }
        slots := slots[i := p.value];
        running := running - {i};
      }
      return Ok(slots);
    }

    /** The default batch path: `process_block` on each block in order. */
    method ProcessEach(h: Handlers.Handler, blocks: seq<Block>, tx: Tx) returns (r: Result<()>)
      modifies tx
      ensures tx.rows == old(tx.rows)
      ensures Same(EachBlock(h.processBlock, blocks)(old(tx.tables)), if r.Ok? then Ok(tx.tables) else Err(r.error))
      ensures r.Ok? ==> Leads(PerBlock(h, blocks), old(tx.tables), tx.tables)
      ensures r.Err? ==> !exists u :: Leads(PerBlock(h, blocks), old(tx.tables), u)
    {
      hide Leads;
      for i := 0 to |blocks|
        invariant tx.rows == old(tx.rows)
        invariant EachBlock(h.processBlock, blocks[..i])(old(tx.tables)) == Ok(tx.tables)
      {
        assert blocks[..i + 1][..i] == blocks[..i];
        var w := h.processBlock(blocks[i])(tx.tables);
        if w.Err? {
          EachPrefixFails(h.processBlock, blocks, old(tx.tables), i + 1);
          forall u ensures !Leads(PerBlock(h, blocks), old(tx.tables), u) {
            EachBlockLeadsIff(h, blocks, old(tx.tables), u);
          }
          return Err(w.error);
        }
        tx.tables := w.value;
      }
      assert blocks[..|blocks|] == blocks;
      EachBlockLeadsIff(h, blocks, old(tx.tables), tx.tables);
      return Ok(());
    }

    /** Phase two for one handler: its prepared write, its own batch path, or the default. */
    method WriteBatch(h: Handlers.Handler, prepared: Option<Write>, blocks: seq<Block>, tx: Tx) returns (r: Result<()>)
      requires h.prepare(blocks).Ok? && h.prepare(blocks).value == prepared
      modifies tx
      ensures tx.rows == old(tx.rows)
      ensures Same(BatchWrite(h, blocks)(old(tx.tables)), if r.Ok? then Ok(tx.tables) else Err(r.error))
      ensures r.Ok? ==> Writes(h, blocks, old(tx.tables), tx.tables)
      ensures r.Err? ==> !exists u :: Writes(h, blocks, old(tx.tables), u)
    {
      var w: Result<Tables>;
      match prepared {
        case Some(write) => w := write(tx.tables);
        case None =>
          match h.processBatch {
            case Some(batch) => w := batch(blocks)(tx.tables);
            case None =>
              r := ProcessEach(h, blocks, tx);
              return;
          }
      }
      if w.Err? {
        return Err(w.error);
      }
      tx.tables := w.value;
      return Ok(());
    }

    /** Phase two: the handlers' writes, one after another, in handler order. */
    method WriteHandlers(prepared: seq<Option<Write>>, blocks: seq<Block>, tx: Tx) returns (r: Result<()>)
      requires |prepared| == |handlers|
      requires forall i :: 0 <= i < |handlers| ==>
                 handlers[i].prepare(blocks).Ok? && handlers[i].prepare(blocks).value == prepared[i]
      modifies tx
      ensures tx.rows == old(tx.rows)
      ensures Same(RunHandlers(handlers, blocks)(old(tx.tables)), if r.Ok? then Ok(tx.tables) else Err(r.error))
      ensures r.Ok? ==> AllWrite(handlers, blocks, old(tx.tables), tx.tables)
      ensures r.Err? ==> !exists u :: AllWrite(handlers, blocks, old(tx.tables), u)
    {
      hide Writes, AllWrite;
      for i := 0 to |handlers|
        invariant tx.rows == old(tx.rows)
        invariant RunHandlers(handlers[..i], blocks)(old(tx.tables)) == Ok(tx.tables)
      {
        assert handlers[..i + 1][..i] == handlers[..i];
        var w := WriteBatch(handlers[i], prepared[i], blocks, tx);
        if w.Err? {
          PrefixFails(handlers, blocks, old(tx.tables), i + 1);
          forall u ensures !AllWrite(handlers, blocks, old(tx.tables), u) {
            RunHandlersIff(handlers, blocks, old(tx.tables), u);
          }
          return w;
        }
      }
      assert handlers[..|handlers|] == handlers;
      RunHandlersIff(handlers, blocks, old(tx.tables), tx.tables);
      return Ok(());
    }

    /** Record every block of the batch; the cursor ends at its last one. */
    method MarkBlocks(blocks: seq<Block>, tx: Tx) returns (r: Result<()>)
      modifies tx
      ensures tx.tables == old(tx.tables)
      ensures r.Ok? ==> tx.rows == SetAll(old(tx.rows), blocks, store.retention)
      ensures r.Err? ==> store.flaky
    {
      for j := 0 to |blocks|
        invariant tx.tables == old(tx.tables)
        invariant tx.rows == SetAll(old(tx.rows), blocks[..j], store.retention)
      {
        assert blocks[..j + 1][..j] == blocks[..j];
        var c := store.SetCursor(tx, blocks[j]);
        if c.Err? {
          return c;
        }
      }
      assert blocks[..|blocks|] == blocks;
      return Ok(());
    }

    /** What a batch transaction that took effect has done. */
    ghost predicate Landed(rows0: Rows, tables0: Tables, blocks: seq<Block>)
      reads store
    {
      RunHandlers(handlers, blocks)(tables0) == Ok(store.tables) && store.rows == SetAll(rows0, blocks, store.retention)
    }

    ghost predicate Untouched(rows0: Rows, tables0: Tables)
      reads store
    {
      store.rows == rows0 && store.tables == tables0
    }

    /** Commit a batch in one transaction: all handlers, then the cursor for every
        block. A handler that fails to prepare or to write leaves the store as it was. */
    method CommitBatch(blocks: seq<Block>) returns (r: Result<()>)
      modifies this`notes, store`rows, store`tables
      ensures blocks == [] ==> r.Ok? && Untouched(old(store.rows), old(store.tables)) && notes == old(notes)
      ensures r.Ok? && blocks != [] ==> Landed(old(store.rows), old(store.tables), blocks)
      ensures r.Ok? && blocks != [] ==> notes == old(notes) + [BatchCommitted(blocks[|blocks| - 1].number, |blocks|)]
      ensures r.Err? ==>
          Untouched(old(store.rows), old(store.tables)) || Landed(old(store.rows), old(store.tables), blocks)
      ensures blocks != [] && RunHandlers(handlers, blocks)(old(store.tables)).Err? ==>
                r.Err? && Untouched(old(store.rows), old(store.tables))
      ensures r.Err? && !store.flaky ==> RunHandlers(handlers, blocks)(old(store.tables)).Err?
      ensures r.Ok? && blocks != [] ==> AllWrite(handlers, blocks, old(store.tables), store.tables)
      ensures blocks != [] && (forall u :: !AllWrite(handlers, blocks, old(store.tables), u)) ==>
                r.Err? && Untouched(old(store.rows), old(store.tables))
      ensures r.Err? && !store.flaky ==> forall u :: !AllWrite(handlers, blocks, old(store.tables), u)
    {
      hide AllWrite, RunHandlers;
      forall u
        ensures RunHandlers(handlers, blocks)(store.tables) == Ok(u) <==> AllWrite(handlers, blocks, store.tables, u)
      {
        RunHandlersIff(handlers, blocks, store.tables, u);
      }
      if |blocks| == 0 {
        return Ok(());
      }
      var prepared := PrepareAll(blocks);
      if prepared.Err? {
        ghost var i :| 0 <= i < |handlers| && handlers[i].prepare(blocks) == Err(prepared.error);
        PrepareFails(handlers, blocks, store.tables, i);
        notes := notes + [Failed("prepare")];
        return Err(prepared.error);
      }
      var begun := store.Begin();
      if begun.Err? {
        return Err(begun.error);
      }
      var tx := begun.value;
      var written := WriteHandlers(prepared.value, blocks, tx);
      if written.Err? {
        notes := notes + [Failed("handler")];
        return written;
      }
      var marked := MarkBlocks(blocks, tx);
      if marked.Err? {
        return marked;
      }
      var done := store.Commit(tx);
      if done.Err? {
        notes := notes + [Failed("commit")];
        return done;
      }
      notes := notes + [BatchCommitted(blocks[|blocks| - 1].number, |blocks|)];
      return Ok(());
    }

    /** Every handler's per-block write, in handler order. */
    method WriteBlock(block: Block, tx: Tx) returns (r: Result<()>)
      modifies tx
      ensures tx.rows == old(tx.rows)
      ensures Same(RunBlock(handlers, block)(old(tx.tables)), if r.Ok? then Ok(tx.tables) else Err(r.error))
      ensures r.Ok? ==> Leads(PerHandler(handlers, block), old(tx.tables), tx.tables)
      ensures r.Err? ==> !exists u :: Leads(PerHandler(handlers, block), old(tx.tables), u)
    {
      hide Leads;
      for i := 0 to |handlers|
        invariant tx.rows == old(tx.rows)
        invariant RunBlock(handlers[..i], block)(old(tx.tables)) == Ok(tx.tables)
      {
        assert handlers[..i + 1][..i] == handlers[..i];
        var w := handlers[i].processBlock(block)(tx.tables);
        if w.Err? {
          BlockPrefixFails(handlers, block, old(tx.tables), i + 1);
          forall u ensures !Leads(PerHandler(handlers, block), old(tx.tables), u) {
            RunBlockLeadsIff(handlers, block, old(tx.tables), u);
          }
          return Err(w.error);
        }
        tx.tables := w.value;
      }
      assert handlers[..|handlers|] == handlers;
      RunBlockLeadsIff(handlers, block, old(tx.tables), tx.tables);
      return Ok(());
    }

    /** What a block transaction that took effect has done. */
    ghost predicate BlockLanded(rows0: Rows, tables0: Tables, block: Block)
      reads store
    {
      && RunBlock(handlers, block)(tables0) == Ok(store.tables)
      && store.rows == BlockTable.SetCursor(rows0, block, store.retention)
    }

    /** Commit one block in its own transaction. */
    method CommitBlock(block: Block) returns (r: Result<()>)
      modifies store`rows, store`tables
      ensures r.Ok? ==> BlockLanded(old(store.rows), old(store.tables), block)
      ensures r.Err? ==>
          Untouched(old(store.rows), old(store.tables)) || BlockLanded(old(store.rows), old(store.tables), block)
      ensures RunBlock(handlers, block)(old(store.tables)).Err?
              ==> r.Err? && Untouched(old(store.rows), old(store.tables))
      ensures r.Err? && !store.flaky ==> RunBlock(handlers, block)(old(store.tables)).Err?
      ensures r.Ok? ==> Leads(PerHandler(handlers, block), old(store.tables), store.tables)
      ensures r.Err? && !store.flaky ==> forall u :: !Leads(PerHandler(handlers, block), old(store.tables), u)
    {
      hide Leads, RunBlock;
      var begun := store.Begin();
      if begun.Err? {
        return Err(begun.error);
      }
      var tx := begun.value;
      var w := WriteBlock(block, tx);
      if w.Err? {
        return w;
      }
      var c := store.SetCursor(tx, block);
      if c.Err? {
        return c;
      }
      r := store.Commit(tx);
    }

    // ---- Reorgs ----

    /** Check the parent of the first block of a window. When it is not the stored
        one, walk to the fork, roll back to it once, report the fork and how far
        below the cursor it lies, and tell the caller where to fetch again. */
    method CheckParent(first: Block) returns (r: Result<Option<u32>>)
      requires Valid() && first.number < |source.chain| && first == source.chain[first.number]
      modifies this`notes, store`rows
      ensures !Diverged(old(store.rows), first) ==>
                && store.rows == old(store.rows) && notes == old(notes)
                && (r.Ok? ==> r.value == None)
                && (r.Err? ==> store.flaky)
      ensures Diverged(old(store.rows), first) ==>
                var fork := ForkOf(old(store.rows), source.chain, first.number - 1);
                var cursor := BlockTable.Cursor(old(store.rows)).value;
                var deep := TooDeep(old(store.rows), source.chain, cursor, config.maxReorgDepth, first.number - 1);
                && (deep ==> r.Err?)
                && (r.Ok? ==>
                      && r.value == Some(SatAdd(fork, 1))
                      && store.rows == BlockTable.RollbackTo(old(store.rows), fork)
                      && notes == old(notes) + [ReorgSeen(fork, SatSub(cursor, fork))])
                && (r.Err? ==>
                      && (store.rows == old(store.rows)
                          || (!deep && store.rows == BlockTable.RollbackTo(old(store.rows), fork)))
                      && (Reliable() ==> deep && r.error.ReorgTooDeep?))
    {
      if first.number > 0 {
        var parentHeight: u32 := first.number - 1;
        var stored := store.HashAt(parentHeight);
        if stored.Err? {
          return Err(stored.error);
        }
        if stored.value.Some? && stored.value.value != first.parent {
          var fork := FindForkPoint(parentHeight, first.parent);
          if fork.Err? {
            return Err(fork.error);
          }
          var c := store.Cursor();
          if c.Err? {
            return Err(c.error);
          }
          var depth := match c.value case Some(id) => SatSub(id.number, fork.value) case None => 0;
          var rolled := store.RollbackTo(fork.value);
          if rolled.Err? {
            return Err(rolled.error);
          }
          notes := notes + [ReorgSeen(fork.value, depth)];
          return Ok(Some(SatAdd(fork.value, 1)));
        }
      }
      return Ok(None);
    }

    /** The next block in chain order: roll back a reorg, or commit it. */
    method ProcessBlock(block: Block) returns (r: Result<Option<u32>>)
      requires Valid() && block.number < |source.chain| && block == source.chain[block.number]
      modifies this`notes, store`rows, store`tables
      ensures !Diverged(old(store.rows), block) ==>
                var rows0, tables0 := old(store.rows), old(store.tables);
                && (r.Ok? ==> r.value == None && BlockLanded(rows0, tables0, block))
                && (r.Err? ==> Untouched(rows0, tables0) || BlockLanded(rows0, tables0, block))
                && (r.Err? && Reliable() ==> RunBlock(handlers, block)(tables0).Err?)
      ensures Diverged(old(store.rows), block) ==>
                var rows0, from := old(store.rows), block.number - 1;
                var fork := ForkOf(rows0, source.chain, from);
                var cursor := BlockTable.Cursor(rows0).value;
                var deep := TooDeep(rows0, source.chain, cursor, config.maxReorgDepth, from);
                && store.tables == old(store.tables)
                && (r.Ok? ==>
                      && !deep && r.value == Some(SatAdd(fork, 1))
                      && store.rows == BlockTable.RollbackTo(rows0, fork)
                      && notes == old(notes) + [ReorgSeen(fork, SatSub(cursor, fork))])
                && (r.Err? ==>
                      && (store.rows == rows0 || (!deep && store.rows == BlockTable.RollbackTo(rows0, fork)))
                      && (Reliable() ==> deep))
    {
      var checked := CheckParent(block);
      if checked.Err? || checked.value.Some? {
        return checked;
      }
      var done := CommitBlock(block);
      return if done.Err? then Err(done.error) else Ok(None);
    }

    /** What is reported of a reorg: the fork, and how far below the cursor it lies. */
    ghost function ReorgNote(rows: Rows, chain: seq<Block>, first: Block): Note
      requires 0 < first.number && BlockTable.Cursor(rows).Some?
    {
      var fork := ForkOf(rows, chain, first.number - 1);
      ReorgSeen(fork, SatSub(BlockTable.Cursor(rows).value, fork))
    }

    /** On a table without gaps the depth is the number of rows that the rollback deletes. */
    lemma DepthIsRowsDeleted(l: Ledger, chain: seq<Block>)
      requires ShapeInv(l) && IsChain(chain) && TipDiverged(l.rows, l.next, chain)
      ensures BlockTable.Cursor(l.rows).Some? && 0 < chain[l.next].number
      ensures var note, l' := ReorgNote(l.rows, chain, chain[l.next]), Rewound(l, chain);
              && note.ReorgSeen? && note.fork == l'.next - 1 && l'.next <= l.next
              && note.depth == |l.rows| - |l'.rows|
    {
      hide Linked, StopsAt;
      CursorOfSpan(l.rows, l.lo, l.next);
      ForkStaysNear(l.rows, chain, l.lo, l.next, l.next - 1);
      RollbackDeletes(l.rows, l.lo, l.next, ForkOf(l.rows, chain, l.next - 1));
    }

    /** The next window in chain order: roll back a reorg found at its first block,
        or commit the whole window. */
    method ProcessBatchBlocks(blocks: seq<Block>) returns (r: Result<Option<u32>>)
      requires Valid()
      requires blocks != [] ==>
                 && blocks[0].number + |blocks| <= |source.chain|
                 && blocks == source.chain[blocks[0].number..blocks[0].number + |blocks|]
      modifies this`notes, store`rows, store`tables
      ensures blocks == [] ==> r == Ok(None) && Untouched(old(store.rows), old(store.tables))
      ensures blocks != [] && !Diverged(old(store.rows), blocks[0]) ==>
                && (r.Ok? ==> r.value == None && Landed(old(store.rows), old(store.tables), blocks))
                && (r.Err? ==>
                      Untouched(old(store.rows), old(store.tables))
                      || Landed(old(store.rows), old(store.tables), blocks))
                && (r.Err? && Reliable() ==> RunHandlers(handlers, blocks)(old(store.tables)).Err?)
      ensures blocks != [] && Diverged(old(store.rows), blocks[0]) ==>
                var from := blocks[0].number - 1;
                var fork := ForkOf(old(store.rows), source.chain, from);
                var cursor := BlockTable.Cursor(old(store.rows)).value;
                var deep := TooDeep(old(store.rows), source.chain, cursor, config.maxReorgDepth, from);
                && store.tables == old(store.tables)
                && (r.Ok? ==>
                      && !deep && r.value == Some(SatAdd(fork, 1))
                      && store.rows == BlockTable.RollbackTo(old(store.rows), fork)
                      && notes == old(notes) + [ReorgNote(old(store.rows), source.chain, blocks[0])])
                && (r.Err? ==>
                      && (store.rows == old(store.rows)
                          || (!deep && store.rows == BlockTable.RollbackTo(old(store.rows), fork)))
                      && (Reliable() ==> deep))
    {
      if |blocks| == 0 {
        return Ok(None);
      }
      var checked := CheckParent(blocks[0]);
      if checked.Err? || checked.value.Some? {
        return checked;
      }
      var done := CommitBatch(blocks);
      return if done.Err? then Err(done.error) else Ok(None);
    }

    // ---- Backfill ----

    /** The fixed part of the indexer this engine runs, with `s.initial` the entity
        tables it was first started on. */
    ghost predicate Runs(s: Setup) {
      && s.start == config.startHeight && s.maxDepth == config.maxReorgDepth
      && s.retention == store.retention && s.handlers == handlers
    }

    ghost predicate Holds(l: Ledger)
      reads store
    {
      store.rows == l.rows && store.tables == l.tables
    }

    ghost predicate HandlersNeverFail() {
      forall bs: seq<Block>, t: Tables :: RunHandlers(handlers, bs)(t).Ok?
    }

    /** One round on a non-empty window. If the window is the one that the ledger
        needs next (`keeps`), what took effect is told as a ledger. The depth
        reported for a reorg is the number of rows that were deleted. */
    method ProcessWindow(ghost keeps: bool, ghost s: Setup, ghost l: Ledger, blocks: seq<Block>)
      returns (r: Result<Option<u32>>, ghost l': Ledger)
      requires Valid() && IsRunOf(blocks, source.chain)
      requires keeps ==> Runs(s) && ShapeInv(l) && Holds(l) && NextWindow(l, source.chain, blocks)
      modifies this`notes, store`rows, store`tables
      ensures r.Ok? ==> store.rows == Handled(old(store.rows), source.chain, blocks, store.retention)
      ensures r.Err? ==> (store.rows == old(store.rows)
                          || store.rows == Handled(old(store.rows), source.chain, blocks, store.retention))
      ensures keeps ==>
                && Holds(l') && (l' == l || Round(s, source.chain, l, blocks, l'))
                && (r.Ok? ==> Round(s, source.chain, l, blocks, l'))
                && (r.Ok? ==> r.value == if TipDiverged(l.rows, l.next, source.chain) then Some(l'.next) else None)
                && (r.Ok? && r.value.None? ==> l'.next == blocks[|blocks| - 1].number + 1 <= MAX_U32)
                && (Refused(l, source.chain, config.maxReorgDepth) ==> r.Err? && l' == l)
                && (r.Err? && Reliable() && HandlersNeverFail() ==> Refused(l, source.chain, config.maxReorgDepth))
      ensures keeps && r.Ok? && r.value.Some? ==>
                exists note: Note :: note.ReorgSeen? && notes == old(notes) + [note]
                  && note.fork == l'.next - 1 && note.depth == |l.rows| - |l'.rows|
    {
      hide IsBatch, Linked, Spans, StopsAt, SetAll, RollbackTo, PruneFloor, IsFork, ReorgNote;
      ghost var chain := source.chain;
      l' := l;
      if keeps {
        CursorOfSpan(l.rows, l.lo, l.next);
        WindowFacts(l, chain, blocks);
      }
      r := ProcessBatchBlocks(blocks);
      if keeps {
        if TipDiverged(l.rows, l.next, chain) {
          l' := if r.Ok? || store.rows != l.rows then Rewound(l, chain) else l;
          DepthIsRowsDeleted(l, chain);
        } else {
          l' := if r.Err? && Untouched(l.rows, l.tables) then l else Advance(l, s, blocks, store.tables);
        }
      }
    }

    /** The same round as one more step of a path of durable states, in a loop that
        stood at `first` before its first round took effect. */
    method Proceed(ghost keeps: bool, ghost s: Setup, ghost first: Ledger, ghost settled: bool, ghost path: seq<Ledger>,
                   blocks: seq<Block>)
      returns (r: Result<Option<u32>>, ghost settled': bool, ghost path': seq<Ledger>)
      requires Valid() && IsRunOf(blocks, source.chain) && 0 < |path|
      requires keeps ==> Runs(s) && IsPath(path, s) && Holds(Last(path))
      requires keeps ==>
          LoopInv(s, source.chain, first, settled, Last(path)) && NextWindow(Last(path), source.chain, blocks)
      modifies this`notes, store`rows, store`tables
      ensures r.Ok? ==> store.rows == Handled(old(store.rows), source.chain, blocks, store.retention)
      ensures r.Err? ==> (store.rows == old(store.rows)
                          || store.rows == Handled(old(store.rows), source.chain, blocks, store.retention))
      ensures path <= path'
      ensures keeps ==>
                && IsPath(path', s) && Holds(Last(path'))
                && LoopInv(s, source.chain, first, settled', Last(path')) && (settled' || path' == path)
                && (r.Ok? ==>
                      settled' && |path'| == |path| + 1 && Round(s, source.chain, Last(path), blocks, Last(path')))
                && (r.Ok? && r.value.Some? ==> Last(path').next == r.value.value)
                && (r.Ok? && r.value.None? ==> Last(path').next == blocks[|blocks| - 1].number + 1 <= MAX_U32)
                && (r.Ok? && settled ==> Last(path).next < Last(path').next)
                && (r.Err? && Reliable() && HandlersNeverFail() ==> Refused(first, source.chain, config.maxReorgDepth))
    {
      hide IsPath, IsChain, LoopInv, ShapeInv, Progress, EngineStep, Round, Trapped, Refused, Rewound, TipDiverged,
        NextWindow, IsRunOf, Handled;
      ghost var chain, l := source.chain, Last(path);
      ghost var l';
      settled', path' := settled, path;
      if keeps {
        LoopFacts(s, chain, first, settled, l);
      }
      r, l' := ProcessWindow(keeps, s, l, blocks);
      if keeps && (l' != l || r.Ok?) {
        RoundKeepsLoopInv(s, chain, first, settled, l, blocks, l');
        RoundIsEngineStep(s, chain, l, blocks, l');
        PathGrows(path, l', s);
        settled', path' := true, path + [l'];
      }
    }

    /** Fetch the window at `next`: a run of the chain no longer than the batch size
        and not past the head, empty only if the source is flaky, and shorter than it
        could be only if the source is flaky or brief. */
    method FetchWindow(next: u32, head: u32) returns (r: Result<seq<Block>>)
      requires Valid() && next <= head == |source.chain| - 1
      modifies this`notes
      ensures r.Ok? ==>
                var n := |r.value|;
                && n <= Max(config.batchSize, 1) && next + n <= |source.chain|
                    && r.value == source.chain[next..next + n]
                && (n == 0 ==> source.flaky)
                && (n == Min(Min(Max(config.batchSize, 1), Max(source.cap, 1)), head - next + 1)
                    || source.flaky || source.brief)
      ensures r.Err? ==> source.flaky
      ensures notes == old(notes) + [if r.Ok? then Fetched(|r.value|) else Failed("fetch")]
    {
      var to := Min(SatAdd(next, SatSub(config.batchSize, 1)), head);
      r := source.FetchBatch(next, to);
      match r {
        case Err(_) => notes := notes + [Failed("fetch")];
        case Ok(blocks) => notes := notes + [Fetched(|blocks|)];
      }
    }

    /** Index from the resume height up to the source's head.

        `path` is every durable state the call went through. However the call
        ends, each was one engine step from the one before, so the invariant of
        all reachable states holds of the last. Against the source's chain at
        most one of the steps is a rollback, and what was committed after it
        tiles the chain from there: the last state is the one that indexing the
        blocks one at a time would have reached, whatever the batch sizes.
        When the head is reached, the table is the chain's window up to it. */
    method Backfill(ghost s: Setup, ghost l0: Ledger) returns (r: Result<u32>, ghost path: seq<Ledger>)
      requires Valid() && Runs(s) && ShapeInv(l0) && Holds(l0)
      requires NoCollisions(l0.rows, source.chain)
      requires !Trapped(Reopen(l0, s), source.chain, config.maxReorgDepth)
      modifies this`notes, store`rows, store`tables, store`indexes
      ensures IsPath(path, s) && path[0] == Reopen(l0, s) && Holds(Last(path)) && ShapeInv(Last(path))
      ensures Last(path) == path[0] || Progress(s, Rewound(path[0], source.chain), Last(path), source.chain)
      ensures r.Ok? ==> r.value == Last(path).next && store.indexes.registry == map[]
      ensures r.Ok? ==>
                var was := old(store.indexes);
                store.indexes.present == was.present + set n | n in was.registry :: was.registry[n].index
      ensures r.Ok? && r.value == |source.chain| && path[0].next < |source.chain| ==>
                var base := Rewound(path[0], source.chain);
                store.rows == Window(source.chain,
                                     Max(base.lo, PruneFloor(|source.chain| - 1, s.retention)), |source.chain|)
      ensures r.Ok? && Reliable() && path[0].next < |source.chain| ==> r.value == |source.chain|
      ensures r.Err? && Reliable() && HandlersNeverFail() ==> Refused(path[0], source.chain, config.maxReorgDepth)
      ensures Refused(path[0], source.chain, config.maxReorgDepth) ==> Holds(path[0])
    {
      hide IsPath, IsChain, LoopInv, ShapeInv, Progress, EngineStep, Round, Trapped, Refused, Reopen, Rewound, Window,
          NoCollisions, TipDiverged, PruneFloor, Resume, IsBatch, Handled, IsRunOf, Linked, Spans;
      ghost var chain := source.chain;
      ghost var first := Reopen(l0, s);
      ghost var settled := false;
      path := [first];
      PathStarts(first, s);
      LoopStarts(l0, s, chain);

      var resumed := ResumeHeight();
      if resumed.Err? {
        return Err(resumed.error), path;
      }
      var next := resumed.value;
      var found := source.FinalizedHead();
      if found.Err? {
        return Err(found.error), path;
      }
      var head := found.value;
      notes := notes + [Head(head)];
      while next <= head
        invariant IsPath(path, s) && 0 < |path| && path[0] == first && Holds(Last(path))
        invariant store.indexes == old(store.indexes)
        invariant LoopInv(s, chain, first, settled, Last(path)) && next == Last(path).next
            && (settled || path == [first])
        decreases if settled then 0 else 1, |chain| - next
      {
        LoopFacts(s, chain, first, settled, Last(path));
        var batch := FetchWindow(next, head);
        if batch.Err? {
          return Err(batch.error), path;
        }
        var blocks := batch.value;
        if |blocks| == 0 {
          break;
        }
        var processed;
        WindowIsRun(Last(path), chain, blocks);
        processed, settled, path := Proceed(true, s, first, settled, path, blocks);
        if processed.Err? {
          LoopFacts(s, chain, first, settled, Last(path));
          return Err(processed.error), path;
        }
        match processed.value {
          case None => next := SatAdd(blocks[|blocks| - 1].number, 1);
          case Some(refetchFrom) => next := refetchFrom;
        }
      }
      LoopFacts(s, chain, first, settled, Last(path));
      var done := store.OnBackfillComplete();
      if done.Err? {
        return Err(done.error), path;
      }
      return Ok(next), path;
    }

    // ---- Following the tip ----

    /** Wait for a delivery and process it. If the stream keeps up with the engine
        (`keeps`), a delivery from another chain starts the loop afresh from the
        last durable state, and one with blocks is one more engine step. */
    method TakeDelivery(d: Delivery, ghost keeps: bool, ghost s: Setup, ghost path: seq<Ledger>, ghost at: nat,
        ghost settled: bool)
      returns (r: Result<()>, ghost path': seq<Ledger>, ghost at': nat, ghost settled': bool)
      requires FromChain(d) && at < |path|
      requires keeps ==> Valid() && Runs(s) && IsPath(path, s) && Holds(Last(path))
      requires keeps ==> LoopInv(s, source.chain, path[at], settled, Last(path))
      requires keeps && d.chain != source.chain ==> Meets(Last(path).rows, Last(path).next, d.chain, s.maxDepth)
      requires keeps && Brings(d) ==> NextWindow(Last(path), d.chain, d.batch.value)
      modifies this`notes, store`rows, store`tables, source`chain
      ensures Valid() && source.chain == d.chain
      ensures d.batch.Err? ==> r.Err?
      ensures r.Ok? ==> store.rows == RowsAfter(old(store.rows), [d], store.retention)
      ensures r.Err? ==> store.rows == old(store.rows) || store.rows == RowsAfter(old(store.rows), [d], store.retention)
      ensures path <= path' && at' < |path'|
      ensures keeps ==>
                && IsPath(path', s) && Holds(Last(path'))
                && LoopInv(s, d.chain, path'[at'], settled', Last(path'))
                && path'[at'].rollbacks <= path[at].rollbacks + (if d.chain != old(source.chain) then 1 else 0)
                && (r.Ok? && Brings(d) ==>
                    |path'| == |path| + 1 && Round(s, d.chain, Last(path), d.batch.value, Last(path')))
                && (r.Ok? && !Brings(d) ==> path' == path)
                && (r.Err? && d.batch.Ok? && Reliable() && HandlersNeverFail() ==>
                    Refused(path'[at'], d.chain, config.maxReorgDepth))
    {
      hide IsPath, LoopInv, ShapeInv, Progress, EngineStep, Round, Refused, Rewound, Meets, NextWindow, IsRunOf,
          Handled;
      path', at', settled' := path, at, settled;
      if keeps {
        LoopFacts(s, source.chain, path[at], settled, Last(path));
        OneRollback(s, source.chain, path[at], settled, Last(path));
        if d.chain != source.chain {
          LoopMeets(Last(path), s, d.chain);
          at', settled' := |path| - 1, false;
        }
      }
      source.Await(d);
      assert [d][..0] == [];
      if d.batch.Err? {
        return Err(d.batch.error), path', at', settled';
      }
      var blocks := d.batch.value;
      if |blocks| == 0 {
        return Ok(()), path', at', settled';
      }
      notes := notes + [Head(blocks[|blocks| - 1].number)];
      var processed;
      processed, settled', path' := Proceed(keeps, s, path'[at'], settled', path', blocks);
      r := if processed.Err? then Err(processed.error) else Ok(());
    }

    /** `l0` is where the engine stands, on a chain it can go on with, and the stream
        keeps up with it. */
    ghost predicate InStep(s: Setup, l0: Ledger, tip: seq<Delivery>)
      reads source, store
    {
      && Runs(s) && ShapeInv(l0) && Holds(l0)
      && Meets(l0.rows, l0.next, source.chain, s.maxDepth)
      && KeepsUp(l0.rows, l0.next, source.chain, s, tip)
    }

    /** Process every batch the tip stream delivers, until it fails, `maxBatches`
        have come in, or the engine is shut down while it waits for one more. The
        height to refetch after a reorg is dropped: the stream has to deliver it.

        Whatever comes, the rows are those of the deliveries taken in turn. When
        the stream keeps up, following is backfill by other means, over as many
        reorgs as there are: each batch is one engine step; for every chain that
        was followed at most one of them is a rollback; and what was committed
        since tiles the chain that is followed now, from the state `path[at]` in
        which it was first met. */
    method Follow(tip: seq<Delivery>, maxBatches: Option<nat>, ghost s: Setup, ghost l0: Ledger)
      returns (r: Result<()>, count: nat, ghost path: seq<Ledger>, ghost at: nat)
      requires Valid() && forall i :: 0 <= i < |tip| ==> FromChain(tip[i])
      modifies this`notes, store`rows, store`tables, source`chain
      ensures count <= |tip| && source.chain == ChainAfter(old(source.chain), tip[..count])
      ensures r.Ok? ==> store.rows == RowsAfter(old(store.rows), tip[..count], store.retention)
      ensures r.Ok? ==> count == |tip| || (maxBatches.Some? &&
                          (count >= maxBatches.value || (0 < count && tip[count - 1].batch == Ok([]))))
      ensures maxBatches.Some? ==> count <= maxBatches.value
      ensures r.Err? ==> 0 < count && (store.rows == RowsAfter(old(store.rows), tip[..count - 1], store.retention)
                                       || store.rows == RowsAfter(old(store.rows), tip[..count], store.retention))
      ensures at < |path|
      ensures old(InStep(s, l0, tip)) ==>
                && IsPath(path, s) && path[0] == l0 && Holds(Last(path)) && ShapeInv(Last(path))
                && (Last(path) == path[at] || Progress(s, Rewound(path[at], source.chain), Last(path), source.chain))
                && Last(path).rollbacks <= l0.rollbacks + 1 + Changes(old(source.chain), tip[..count])
                && (r.Ok? ==> |path| == 1 + Batches(tip[..count]))
                && (r.Err? && Reliable() && HandlersNeverFail() && (forall i :: 0 <= i < |tip| ==> tip[i].batch.Ok?) ==>
                      Refused(path[at], source.chain, config.maxReorgDepth))
    {
      hide FromChain, IsPath, IsChain, LoopInv, ShapeInv, Progress, EngineStep, Round, Refused, Rewound, Meets, KeepsUp,
        NextWindow, Handled, Following, Followed, RowsAfter, Changes;
      ghost var keeps, settled, chain0 := InStep(s, l0, tip), false, source.chain;
      r, path, at, count := Ok(()), [l0], 0, 0;
      NoDeliveryYet(store.rows, source.chain, tip, store.retention);
      if keeps {
        FollowingStarts(s, l0, chain0, tip);
        FollowingFacts(s, l0, chain0, tip, 0, path, at, settled);
      }
      while count < |tip|
        invariant r.Ok? && count <= |tip| && at < |path| && Valid()
        invariant maxBatches.Some? ==> count <= maxBatches.value
        invariant source.chain == ChainAfter(chain0, tip[..count])
        invariant store.rows == RowsAfter(old(store.rows), tip[..count], store.retention)
        invariant keeps ==> Holds(Last(path)) && Following(s, l0, chain0, tip, count, path, at, settled)
        invariant keeps ==>
            Followed(s, l0, chain0, tip[..count], path, at, settled) && |path| == 1 + Batches(tip[..count])
      {
        if maxBatches.Some? && count >= maxBatches.value {
          break;
        }
        ghost var path', at', settled';
        if keeps {
          FollowingFacts(s, l0, chain0, tip, count, path, at, settled);
        }
        OneMoreDelivery(old(store.rows), tip, count, store.retention);
        r, path', at', settled' := TakeDelivery(tip[count], keeps, s, path, at, settled);
        if keeps {
          FollowingContinues(s, l0, chain0, tip, count, path, at, settled, r.Ok?, path', at', settled');
          BatchesStep(tip, count);
        }
        path, at, settled := path', at', settled';
        count := count + 1;
        if r.Err? {
          break;
        }
        if tip[count - 1].batch.value == [] && maxBatches.Some? {
          break;
        }
      }
      if keeps {
        FollowedFacts(s, l0, chain0, tip[..count], path, at, settled);
      }
    }

    // ---- One call ----

    /** Backfill to the head, then follow the tip until the engine is shut down. On
        the chain it has caught up with, the engine can always go on: it follows
        from the last state of the backfill, in step if the stream keeps up. */
    method RunUntil(tip: seq<Delivery>, ghost s: Setup, ghost l0: Ledger)
      returns (r: Result<()>, count: nat, ghost caughtUp: seq<Ledger>, ghost path: seq<Ledger>, ghost at: nat)
      requires Valid() && Runs(s) && ShapeInv(l0) && Holds(l0) && NoCollisions(l0.rows, source.chain)
      requires !Trapped(Reopen(l0, s), source.chain, config.maxReorgDepth)
      requires forall i :: 0 <= i < |tip| ==> FromChain(tip[i])
      modifies this`notes, store`rows, store`tables, store`indexes, source`chain
      ensures IsPath(caughtUp, s) && caughtUp[0] == Reopen(l0, s) && count <= |tip| && at < |path|
      ensures var l := Last(caughtUp);
              && Meets(l.rows, l.next, old(source.chain), s.maxDepth)
              && (KeepsUp(l.rows, l.next, old(source.chain), s, tip) ==>
                    && IsPath(path, s) && path[0] == l && Holds(Last(path)) && ShapeInv(Last(path))
                    && (Last(path) == path[at]
                        || Progress(s, Rewound(path[at], source.chain), Last(path), source.chain))
                    && Last(path).rollbacks <= Reopen(l0, s).rollbacks + 2 + Changes(old(source.chain), tip[..count])
                    && (r.Ok? ==> count == |tip| && |path| == 1 + Batches(tip)))
      ensures r.Ok? ==> store.rows == RowsAfter(Last(caughtUp).rows, tip, store.retention)
    {
      hide EngineStep, Progress, ShapeInv, KeepsUp, Trapped, Rewound, NoCollisions, Meets, FromChain;
      ghost var chain := source.chain;
      count := 0;
      var backfilled;
      backfilled, caughtUp := Backfill(s, l0);
      path, at := [Last(caughtUp)], 0;
      PathStarts(Last(caughtUp), s);
      CaughtUpMeets(s, chain, caughtUp[0], Last(caughtUp));
      if backfilled.Err? {
        return Err(backfilled.error), count, caughtUp, path, at;
      }
      r, count, path, at := Follow(tip, None, s, Last(caughtUp));
      assert r.Ok? ==> tip[..count] == tip;
    }
  }
}
