/** The Postgres-backed store: bookkeeping rows, entity tables and the
    deferred-index registry, changed only by committed transactions. */
module Store {
  import opened Prelude
  import opened Chain
  import opened Sql
  import opened BlockTable
  import opened DeferredIndexes

  datatype BlockId = BlockId(number: u32, hash: string)

  /** An open transaction: its own view of the rows and tables, dropped unless committed. */
  class Tx {
    var rows: Rows
    var tables: Tables

    constructor (rows: Rows, tables: Tables)
      ensures this.rows == rows && this.tables == tables
    {
      this.rows := rows;
      this.tables := tables;
    }
  }

  /** A `flaky` store may fail any request. A commit that fails may or may not
      have taken effect; nothing in between. */
  class PgStore {
    var rows: Rows
    var tables: Tables
    var indexes: Indexes
    const retention: u32
    const flaky: bool

    constructor (retention: u32, flaky: bool, tables: Tables, present: set<string>)
      ensures rows == map[] && this.tables == tables && indexes == Indexes(present, map[])
      ensures this.retention == retention && this.flaky == flaky
    {
      this.rows := map[];
      this.tables := tables;
      this.indexes := Indexes(present, map[]);
      this.retention := retention;
      this.flaky := flaky;
    }

    method Fault() returns (fault: bool)
      ensures fault ==> flaky
    {
      fault := *;
      fault := flaky && fault;
    }

    /** The highest stored block. */
    method Cursor() returns (r: Result<Option<BlockId>>)
      ensures r.Ok? ==>
                match r.value
                case None => BlockTable.Cursor(rows) == None
                case Some(id) =>
                  BlockTable.Cursor(rows) == Some(id.number) && id.number in rows && id.hash == rows[id.number].hash
      ensures r.Err? ==> flaky && r.error.Store?
    {
      var fault := Fault();
      if fault {
        return Err(Error.Store("cursor"));
      }
      if rows == map[] {
        return Ok(None);
      }
      HasHighest(rows.Keys);
      var top: u32 :| top in rows.Keys && forall h: u32 :: h in rows.Keys ==> h <= top;
      return Ok(Some(BlockId(top, rows[top].hash)));
    }

    method HashAt(height: u32) returns (r: Result<Option<string>>)
      ensures r.Ok? ==> r.value == if height in rows then Some(rows[height].hash) else None
      ensures r.Err? ==> flaky && r.error.Store?
    {
      var fault := Fault();
      if fault {
        return Err(Error.Store("hash_at"));
      }
      return Ok(if height in rows then Some(rows[height].hash) else None);
    }

    method Begin() returns (r: Result<Tx>)
      ensures r.Ok? ==> fresh(r.value) && r.value.rows == rows && r.value.tables == tables
      ensures r.Err? ==> flaky && r.error.Store?
    {
      var fault := Fault();
      if fault {
        return Err(Error.Store("begin"));
      }
      var tx := new Tx(rows, tables);
      return Ok(tx);
    }

    /** Upsert the block's row and prune below the retained window, on the transaction. */
    method SetCursor(tx: Tx, block: Block) returns (r: Result<()>)
      modifies tx
      ensures tx.tables == old(tx.tables)
      ensures r.Ok? ==> tx.rows == BlockTable.SetCursor(old(tx.rows), block, retention)
      ensures r.Ok? ==> block.number in tx.rows && Describes(tx.rows[block.number], block)
      ensures r.Err? ==> flaky && r.error.Store?
    {
      var fault := Fault();
      if fault {
        return Err(Error.Store("set_cursor"));
      }
      tx.rows := tx.rows[block.number := RowOf(block)];
      RowDescribes(block);
      if retention > 0 {
        var pruneBelow := SatSub(block.number, retention);
        if pruneBelow > 0 {
          fault := Fault();
          if fault {
            return Err(Error.Store("prune"));
          }
          tx.rows := map h: u32 | h in tx.rows && !(h < pruneBelow) :: tx.rows[h];
        }
      }
      return Ok(());
    }

    /** Publish the transaction's view. */
    method Commit(tx: Tx) returns (r: Result<()>)
      modifies this`rows, this`tables
      ensures (rows == tx.rows && tables == tx.tables) || (r.Err? && rows == old(rows) && tables == old(tables))
      ensures r.Err? ==> flaky && r.error.Store?
    {
      var fault := Fault();
      if fault {
        var applied := Fault();
        if applied {
          rows, tables := tx.rows, tx.tables;
        }
        return Err(Error.Store("commit"));
      }
      rows, tables := tx.rows, tx.tables;
      return Ok(());
    }

    /** Delete the bookkeeping rows above `height`; the entity tables stay. */
    method RollbackTo(height: u32) returns (r: Result<()>)
      modifies this`rows
      ensures rows == BlockTable.RollbackTo(old(rows), height) || (r.Err? && rows == old(rows))
      ensures r.Err? ==> flaky && r.error.Store?
    {
      var fault := Fault();
      var applied := Fault();
      if fault && !applied {
        return Err(Error.Store("rollback"));
      }
      rows := map h: u32 | h in rows && !(h > height) :: rows[h];
      return if fault then Err(Error.Store("rollback commit")) else Ok(());
    }

    /** Drop and register an index on a fresh database; otherwise make sure it exists. */
    method DeferIndex(name: string, ddl: Ddl) returns (r: Result<()>)
      modifies this`indexes
      ensures indexes == Defer(old(indexes), rows == map[], name, ddl) || (r.Err? && indexes == old(indexes))
      ensures rows != map[] ==> indexes.registry == old(indexes).registry
      ensures rows != map[] ==>
                indexes.present == old(indexes).present + {ddl.index}
                || (r.Err? && indexes.present == old(indexes).present)
      ensures rows == map[] && r.Ok? ==>
                && indexes.registry == old(indexes).registry[name := ddl]
                && indexes.present == old(indexes).present - {name}
      ensures r.Err? ==> flaky && r.error.Store?
    {
      var c := Cursor();
      if c.Err? {
        return Err(c.error);
      }
      var isFresh := c.value.None?;
      var fault := Fault();
      var applied := Fault();
      if fault && !applied {
        return Err(Error.Store("defer index"));
      }
      if !isFresh {
        indexes := indexes.(present := Execute(indexes.present, ddl));
      } else {
        var registered := indexes.registry[name := ddl];
        indexes := Indexes(indexes.present - {name}, registered);
      }
      return if fault then Err(Error.Store("defer index commit")) else Ok(());
    }

    /** Recreate every deferred index, one transaction each, clearing its row. */
    method OnBackfillComplete() returns (r: Result<()>)
      modifies this`indexes
      ensures r.Ok? ==> indexes.registry == map[]
      ensures r.Ok? ==>
                var was := old(indexes);
                indexes.present == was.present + set n | n in was.registry :: was.registry[n].index
      ensures r.Err? ==> flaky && r.error.Store?
      ensures old(indexes).present <= indexes.present
      ensures forall n :: n in old(indexes).registry ==>
                || (n in indexes.registry && indexes.registry[n] == old(indexes).registry[n])
                || old(indexes).registry[n].index in indexes.present
    {
      var fault := Fault();
      if fault {
        return Err(Error.Store("deferred index list"));
      }
      var pending := indexes.registry;
      ghost var was := indexes;
      ghost var made: set<string> := {};
      while pending != map[]
        invariant pending == indexes.registry
        invariant pending.Keys <= was.registry.Keys && forall n :: n in pending ==> pending[n] == was.registry[n]
        invariant made == set n | n in was.registry && n !in pending :: was.registry[n].index
        invariant indexes.present == was.present + made
        decreases pending.Keys
      {
        var name :| name in pending;
        fault := Fault();
        var applied := Fault();
        if fault && !applied {
          return Err(Error.Store("recreate index"));
        }
        made := made + {was.registry[name].index};
        indexes := Recreate(indexes, name);
        pending := pending - {name};
        if fault {
          return Err(Error.Store("recreate index commit"));
        }
      }
      return Ok(());
    }
  }
}
