/** Concrete inputs at which the code does not do what one would expect of it: runs
    the indexer can go through, and schemas the resolver accepts. */
module Witnesses {
  import opened Prelude
  import opened Chain
  import opened Sql
  import opened Handlers
  import opened BlockTable
  import opened ForkPoint
  import opened Ledgers
  import opened Convergence
  import opened Naming
  import opened SchemaResolver
  import opened Source
  import opened TipStream
  import AssetRows
  import Config
  import Runs
  import Upsert

  // ---- Runs ----

  function BlockOf(n: u32, hash: string, parent: string): Block {
    Block(n, hash, parent, None, 0, [])
  }

  /** A first session on a fresh database. */
  lemma OpenedRun(s: Setup) returns (states: seq<Runs.State>, events: seq<Runs.Event>)
    ensures Runs.IsRun(s, states, events) && Runs.Last(states) == Runs.State(Fresh(s), Runs.Idle(s.start))
  {
    var x, y := Runs.State(Fresh(s), Runs.Down), Runs.State(Fresh(s), Runs.Idle(s.start));
    Runs.RunGrows(s, [x], [], Runs.Restart, y);
    states, events := [x, y], [Runs.Restart];
    assert [x] + [y] == states && [] + [Runs.Restart] == events;
  }

  function Native(): seq<Block> {
    [BlockOf(0, "a0", ""), BlockOf(1, "a1", "a0"), BlockOf(2, "a2", "a1")]
  }

  function Foreign(): seq<Block> {
    [BlockOf(0, "x0", ""), BlockOf(1, "x1", "x0"), BlockOf(2, "x2", "x1")]
  }

  /** Index genesis of one chain, then meet a source of another: whatever the
      settings, the indexer is in the trap. */
  lemma RunIntoTheTrap(retention: u32, maxDepth: u32)
    returns (s: Setup, states: seq<Runs.State>, events: seq<Runs.Event>)
    ensures s == Setup(0, retention, maxDepth, [], map[]) && Runs.IsRun(s, states, events)
    ensures var l := Runs.Last(states).ledger;
            Runs.Last(states).phase.Idle? && IsChain(Foreign()) && NoCollisions(l.rows, Foreign())
                && Trapped(l, Foreign(), maxDepth)
  {
    hide Runs.IsRun;
    s := Setup(0, retention, maxDepth, [], map[]);
    var bs := [Native()[0]];
    states, events := OpenedRun(s);
    states, events := Runs.EveryCommitIsARun(s, states, events, bs);
    SetAllAt(map[], bs, 0, retention, 0);
  }

  /** The chain after block 2 was replaced. */
  function Reorganised(): seq<Block> {
    [BlockOf(0, "a0", ""), BlockOf(1, "a1", "a0"), BlockOf(2, "y2", "a1"), BlockOf(3, "y3", "y2")]
  }

  function SmallConfig(): Config.IndexerConfig {
    Config.IndexerConfig(Some("ws://node"), Some("postgres://db"), None, Some(1), None, None, Some(1))
  }

  /** Three blocks of a chain, kept with a retention of one. */
  function Kept(): Ledger {
    Ledger(map[1 := RowOf(Native()[1]), 2 := RowOf(Native()[2])], map[], 1, 3, 3, Native(), 0)
  }

  lemma RowsKept()
    ensures SetAll(map[], Native(), 1) == Kept().rows
  {
    hide SetAll;
    var rows := SetAll(map[], Native(), 1);
    forall h: u32 ensures (h in rows <==> h in Kept().rows) && (h in rows ==> rows[h] == Kept().rows[h]) {
      SetAllAt(map[], Native(), 0, 1, h);
    }
  }

  lemma IndexingKeepsTwo(s: Setup)
    requires s.start == 0 && s.retention == 1 && s.handlers == [] && s.initial == map[]
    ensures CanCommit(Fresh(s), Native()) && Commit(Fresh(s), s, Native()) == Ok(Kept())
  {
    hide SetAll, RowOf, RunHandlers, IsBatch;
    RowsKept();
    NativeIsBatch();
    assert RunHandlers(s.handlers, Native())(map[]) == Ok(map[]) by { NoHandlersWrite(Native(), map[]); }
    assert [] + Native() == Native();
  }

  lemma NativeIsBatch()
    ensures IsBatch(Native(), 0)
  {
  }

  lemma NoHandlersWrite(bs: seq<Block>, t: Tables)
    ensures RunHandlers([], bs)(t) == Ok(t)
  {
  }

  /** A config that validation accepts, and two reorgs of one block each: after the
      first the fork of the second can be looked for in pruned ground, and the
      second empties the table, so that a restart would go back to the start
      height while the session goes on from block 1. */
  lemma TwoReorgsLoseTheFork() returns (s: Setup, states: seq<Runs.State>, events: seq<Runs.Event>, i: nat)
    ensures Config.Validate(SmallConfig()).Accepted? && s == Config.SetupOf(SmallConfig(), [], map[])
    ensures Runs.IsRun(s, states, events) && i < |states| && Config.CanLoseFork(states[i].ledger, s.maxDepth)
    ensures var x := Runs.Last(states);
            x.phase == Runs.Idle(1) && x.ledger.rows == map[] && Resume(x.ledger.rows, s.start) == 0
  {
    s := Config.SetupOf(SmallConfig(), [], map[]);
    IndexingKeepsTwo(s);
    FirstReorg(s);
    SecondReorg(s);
    assert Resume(map[], 0) == 0 && Config.Validate(SmallConfig()).Accepted?;
    hide Runs.IsRun, Runs.Step, Config.CanLoseFork, Config.Validate, Commit, CanCommit, Resume, Kept, Native, Foreign,
        Reorganised;
    states, events := OpenedRun(s);
    states, events := Runs.EveryCommitIsARun(s, states, events, Native());
    i := |states|;
    var y := Runs.State(Left(), Runs.Idle(2));
    var z := Runs.State(Left().(rows := map[], next := 1, rollbacks := 2), Runs.Idle(1));
    states, events := GrownTwice(s, states, events, Runs.Reorg(Reorganised()), y, Runs.Reorg(Foreign()), z);
  }

  lemma GrownTwice(s: Setup, states: seq<Runs.State>, events: seq<Runs.Event>, e: Runs.Event, y: Runs.State,
      f: Runs.Event, z: Runs.State)
    returns (states': seq<Runs.State>, events': seq<Runs.Event>)
    requires Runs.IsRun(s, states, events) && Runs.Step(s, Runs.Last(states), e, y) && Runs.Step(s, y, f, z)
    ensures Runs.IsRun(s, states', events') && |states| < |states'| && states'[|states|] == y && Runs.Last(states') == z
  {
    hide Runs.Step, Runs.IsRun;
    Runs.RunGrows(s, states, events, e, y);
    Runs.RunGrows(s, states + [y], events + [e], f, z);
    states', events' := states + [y] + [z], events + [e] + [f];
  }

  /** What the first reorg leaves. */
  function Left(): Ledger {
    Kept().(rows := map[1 := RowOf(Native()[1])], next := 2, rollbacks := 1)
  }

  lemma FirstReorg(s: Setup)
    requires s == Config.SetupOf(SmallConfig(), [], map[])
    ensures Runs.Step(s, Runs.State(Kept(), Runs.Idle(Kept().next)), Runs.Reorg(Reorganised()),
        Runs.State(Left(), Runs.Idle(2)))
  {
    var l := Kept();
    assert !StopsAt(l.rows, Reorganised(), 2) && StopsAt(l.rows, Reorganised(), 1);
    assert ForkOf(l.rows, Reorganised(), 2) == 1;
    assert RollbackTo(l.rows, 1) == Left().rows;
  }

  lemma SecondReorg(s: Setup)
    requires s == Config.SetupOf(SmallConfig(), [], map[])
    ensures var z := Left().(rows := map[], next := 1, rollbacks := 2);
            Runs.Step(s, Runs.State(Left(), Runs.Idle(2)), Runs.Reorg(Foreign()), Runs.State(z, Runs.Idle(1)))
    ensures Config.CanLoseFork(Left(), 1)
  {
    var rows := Left().rows;
    assert !StopsAt(rows, Foreign(), 1) && StopsAt(rows, Foreign(), 0);
    assert ForkOf(rows, Foreign(), 1) == 0;
    assert RollbackTo(rows, 0) == map[];
    assert EndsBelowTable(rows, Foreign(), 1, 1);
  }

  // ---- Skipped heights ----

  /** Six blocks of a chain. */
  function Six(): seq<Block> {
    seq(6, (i: int) requires 0 <= i < 6 => BlockOf(i, ["012345"[i]], if i == 0 then "" else ["012345"[i - 1]]))
  }

  /** What a backfill of its first three leaves. */
  function FirstThree(): Rows {
    map[0 := RowOf(Six()[0]), 1 := RowOf(Six()[1]), 2 := RowOf(Six()[2])]
  }

  /** Block 3 became final while nobody was subscribed: the tip starts with block
      4, which passes the parent check and leaves a gap. */
  lemma SubscribedTooLate()
    ensures var d := Delivery(Six(), Ok([Six()[4]]));
            && FromChain(d) && !Diverged(FirstThree(), Six()[4])
            && !Contiguous(Handled(FirstThree(), Six(), [Six()[4]], 0)) && !InReach(FirstThree(), d)
  {
    ThreeAreStored();
    CommitStaysContiguousIff(FirstThree(), 0, 3, [Six()[4]], 4, 0);
  }

  /** With a retention of one the gap does not even show: blocks 3 and 4 were never
      indexed, and the table is linked and has no gap. */
  lemma PruningHidesTheGap()
    ensures var d := Delivery(Six(), Ok([Six()[5]]));
            var after := Handled(FirstThree(), Six(), [Six()[5]], 1);
            && FromChain(d) && !Diverged(FirstThree(), Six()[5])
            && Linked(after) && Contiguous(after)
            && !NothingSkipped(after, IndexedAfter({0, 1, 2}, [d]), 0) && !InReach(FirstThree(), d)
  {
    var d := Delivery(Six(), Ok([Six()[5]]));
    ThreeAreStored();
    CommitStaysContiguousIff(FirstThree(), 0, 3, [Six()[5]], 5, 1);
    CommitStaysLinkedIff(FirstThree(), [Six()[5]], 5, 1);
    assert NothingSkipped(FirstThree(), {0, 1, 2}, 0);
    SkipsNothingIff(FirstThree(), {0, 1, 2}, 0, d, 1);
    assert [d][..0] == [];
    assert IndexedAfter({0, 1, 2}, []) == {0, 1, 2};
    assert IndexedAfter({0, 1, 2}, [d]) == {0, 1, 2} + Heights([Six()[5]]);
  }

  lemma ThreeAreStored()
    ensures IsChain(Six()) && Spans(FirstThree(), 0, 3) && Linked(FirstThree()) && Cursor(FirstThree()) == Some(2)
  {
    CursorOfSpan(FirstThree(), 0, 3);
  }

  // ---- Entity rows ----

  /** The asset handler, from genesis, with ample retention. */
  function AssetSetup(): Setup {
    Setup(0, 100, 64, [AssetRows.AssetsHandler()], map[AssetRows.TABLE := map[]])
  }

  /** Block 1 creates an asset. */
  function WithAsset(): seq<Block> {
    [BlockOf(0, "a0", ""), Block(1, "a1", "a0", None, 0, AssetRows.Created(1))]
  }

  /** The chain that replaces it creates none. */
  function WithoutAsset(): seq<Block> {
    [BlockOf(0, "a0", ""), BlockOf(1, "y1", "a0"), BlockOf(2, "y2", "y1")]
  }

  lemma {:induction false} OneHandlerRuns(bs: seq<Block>, t: Tables)
    ensures RunHandlers(AssetSetup().handlers, bs)(t) == AssetRows.WriteRows(AssetRows.RowsOfBlocks(bs))(t)
  {
    var h := AssetRows.AssetsHandler();
    assert [h][..0] == [];
    assert RunHandlers([h], bs) == Then(RunHandlers([], bs), BatchWrite(h, bs));
  }

  lemma AssetRowsKept()
    ensures SetAll(map[], WithAsset(), 100) == map[0 := RowOf(WithAsset()[0]), 1 := RowOf(WithAsset()[1])]
  {
  }

  lemma AssetIsWritten()
    ensures var r := RunHandlers(AssetSetup().handlers, WithAsset())(AssetSetup().initial);
            r.Ok? && AssetRows.TABLE in r.value && [Int(1), Int(0)] in r.value[AssetRows.TABLE]
  {
    hide RunHandlers, AssetRows.InsertRows, AssetRows.RowsOfBlocks, AssetRows.Created;
    RowsOfAsset();
    OneHandlerRuns(WithAsset(), AssetSetup().initial);
    AssetRows.InsertRowsKeeps(map[], AssetRows.RowsOfBlocks(WithAsset()));
    assert AssetRows.KeyOf(AssetRows.RowsOfBlocks(WithAsset())[0]) == [Int(1), Int(0)];
  }

  lemma AssetIsStored()
    ensures var s := AssetSetup();
            && CanCommit(Fresh(s), WithAsset()) && Commit(Fresh(s), s, WithAsset()).Ok?
            && var l := Commit(Fresh(s), s, WithAsset()).value;
            && l.next == 2 && l.rows == map[0 := RowOf(WithAsset()[0]), 1 := RowOf(WithAsset()[1])]
            && AssetRows.TABLE in l.tables && [Int(1), Int(0)] in l.tables[AssetRows.TABLE]
  {
    hide RunHandlers, SetAll, RowOf, AssetRows.Created, AssetRows.AssetsHandler;
    AssetIsWritten();
    AssetRowsKept();
  }

  lemma RowsOfAsset()
    ensures AssetRows.RowsOfBlocks(WithAsset()) == [AssetRows.Row(1, 0, "created", None, None)]
  {
  }

  lemma NoAssetChangesNothing(t: Tables)
    ensures RunHandlers(AssetSetup().handlers, WithoutAsset()[1..])(t) == Ok(t)
  {
    var bs := WithoutAsset()[1..];
    assert bs == [BlockOf(1, "y1", "a0"), BlockOf(2, "y2", "y1")];
    AssetRows.RowsOfTwo(bs[0], bs[1]);
    OneHandlerRuns(bs, t);
  }

  /** A run in which a reorg takes away the block that created an asset, and the
      row it wrote stays: every stored block is on the new chain, no block of which
      has an event. */
  lemma OrphanedRowSurvives() returns (states: seq<Runs.State>, events: seq<Runs.Event>)
    ensures Runs.IsRun(AssetSetup(), states, events)
    ensures var l := Runs.Last(states).ledger;
            && l.next == |WithoutAsset()| && AllAgree(l.rows, WithoutAsset())
            && (forall i :: 0 <= i < |WithoutAsset()| ==> WithoutAsset()[i].events == [])
            && AssetRows.TABLE in l.tables && [Int(1), Int(0)] in l.tables[AssetRows.TABLE]
  {
    var s := AssetSetup();
    AssetIsStored();
    hide Runs.IsRun, Commit, CanCommit, RunHandlers, AssetRows.AssetsHandler;
    states, events := OpenedRun(s);
    states, events := Runs.EveryCommitIsARun(s, states, events, WithAsset());
    var l := Runs.Last(states).ledger;
    AssetReorged(l);
    Runs.RunGrows(s, states, events, Runs.Reorg(WithoutAsset()), Runs.State(Rewind(l, 0), Runs.Idle(1)));
    states, events := states + [Runs.State(Rewind(l, 0), Runs.Idle(1))], events + [Runs.Reorg(WithoutAsset())];
    ReplacedCommits(l);
    states, events := Runs.EveryCommitIsARun(s, states, events, WithoutAsset()[1..]);
  }

  lemma AssetReorged(l: Ledger)
    requires l.next == 2 && l.rows == map[0 := RowOf(WithAsset()[0]), 1 := RowOf(WithAsset()[1])]
    ensures Runs.Step(AssetSetup(), Runs.State(l, Runs.Idle(2)), Runs.Reorg(WithoutAsset()),
                      Runs.State(Rewind(l, 0), Runs.Idle(1)))
    ensures Rewind(l, 0).rows == map[0 := RowOf(WithAsset()[0])]
  {
    hide AssetRows.Created, AssetRows.AssetsHandler;
    assert !StopsAt(l.rows, WithoutAsset(), 1) && StopsAt(l.rows, WithoutAsset(), 0);
    assert ForkOf(l.rows, WithoutAsset(), 1) == 0;
  }

  lemma NoFloorYet()
    ensures PruneFloor(2, 100) == 0
  {
  }

  lemma ReplacedCommits(l: Ledger)
    requires l.next == 2 && Rewind(l, 0).rows == map[0 := RowOf(WithAsset()[0])]
    ensures var s, m := AssetSetup(), Rewind(l, 0);
            && CanCommit(m, WithoutAsset()[1..]) && Commit(m, s, WithoutAsset()[1..]).Ok?
            && var l' := Commit(m, s, WithoutAsset()[1..]).value;
            l'.next == 3 && l'.tables == l.tables && AllAgree(l'.rows, WithoutAsset())
  {
    var m, bs := Rewind(l, 0), WithoutAsset()[1..];
    assert bs == [BlockOf(1, "y1", "a0"), BlockOf(2, "y2", "y1")];
    NoAssetChangesNothing(l.tables);
    hide RunHandlers, SetAll, AssetRows.Created, AssetRows.AssetsHandler, RollbackTo, PruneFloor;
    assert PruneFloor(2, 100) == 0 by { NoFloorYet(); }
    var rows := SetAll(m.rows, bs, 100);
    forall h: u32 | h in rows ensures Agrees(rows, WithoutAsset(), h) {
      SetAllAt(m.rows, bs, 1, 100, h);
    }
  }

  // ---- Schemas ----

  function StoredField(name: string, scalar: string): FieldDef {
    FieldDef(name, TypeRef(Named(scalar), false), [])
  }

  function EntityNamed(name: string, fields: seq<FieldDef>): Definition {
    TypeDefinition(name, ObjectKind(fields), ["entity"])
  }

  function ThingFields(): seq<FieldDef> {
    [StoredField("id", "ID"), StoredField("fooBar", "Int"), StoredField("foo_bar", "Int")]
  }

  lemma ThingFieldsOk(names: Names)
    ensures FieldsOk(names, ThingFields())
  {
  }

  /** Two fields whose names differ and whose columns do not: the schema is
      accepted, and the upsert generator cannot be trusted with it. */
  lemma ColumnsCollide()
    ensures var d := EntityNamed("Thing", ThingFields());
            Accepts([d]) && !Upsert.WellFormed(EntityOf(NamesOf([d]), d)[0])
  {
    hide NamesOf, FieldsOk, EntityNames, Upsert.WellFormed, ColumnsApart, EntityOf;
    var d := EntityNamed("Thing", ThingFields());
    ThingNames(d);
    ThingFieldsOk(NamesOf([d]));
    ThingColumns();
    AcceptedIsWellFormedIff(NamesOf([d]), d);
  }

  lemma OneColumn()
    ensures SnakeCase("fooBar") == SnakeCase("foo_bar")
  {
    LowerNamesStay("foo_bar", 0);
    var s := "fooBar";
    assert SnakeFrom(s, 6) == "";
    assert SnakeFrom(s, 5) == "r";
    assert SnakeFrom(s, 4) == "ar";
    assert SnakeFrom(s, 3) == "_bar";
    assert SnakeFrom(s, 2) == "o_bar";
    assert SnakeFrom(s, 1) == "oo_bar";
  }

  lemma ThingColumns()
    ensures !ColumnsApart(ThingFields())
  {
    hide SnakeCase;
    OneColumn();
    assert IsStored(ThingFields()[1]) && IsStored(ThingFields()[2]);
  }

  lemma ThingNames(d: Definition)
    requires IsEntity(d)
    ensures EntityNames([d]) == [d.name]
  {
    assert [d][..0] == [];
    assert Collect(EntityName, [d]) == Collect(EntityName, []) + EntityName(d);
  }

  /** Two entities whose names differ and whose tables do not. */
  lemma TablesCollide()
    ensures TableName("Foo") == TableName("FOO") == "foos"
  {
    assert SnakeCase("Foo") == "foo" == SnakeCase("FOO");
  }

  function VirtualField(name: string, entity: string): FieldDef {
    FieldDef(name, TypeRef(ListOf(TypeRef(Named(entity), false)), false), ["derivedFrom"])
  }

  /** The order of fields decides: a virtual field and a stored one may share a
      name if the virtual one comes first, and may not if it comes second. */
  lemma VirtualFieldOrder()
    ensures var id, virtual, stored := StoredField("id", "ID"), VirtualField("owner", "Thing"),
        StoredField("owner", "String");
            && Accepts([EntityNamed("Thing", [id, virtual, stored])])
            && !Accepts([EntityNamed("Thing", [id, stored, virtual])])
  {
    var id, virtual, stored := StoredField("id", "ID"), VirtualField("owner", "Thing"), StoredField("owner", "String");
    var d, e := EntityNamed("Thing", [id, virtual, stored]), EntityNamed("Thing", [id, stored, virtual]);
    ThingNames(d);
    ThingNames(e);
    assert [id, virtual, stored][0] == id && !IsStored(virtual) && IsStored(stored);
    assert FieldsOk(NamesOf([d]), d.kind.fields) by {
      assert id in d.kind.fields;
    }
    assert !NoRepeats(e.kind.fields) by {
      assert e.kind.fields[1] == stored && e.kind.fields[2] == virtual;
    }
    assert e in [e] && IsEntity(e);
  }
}
