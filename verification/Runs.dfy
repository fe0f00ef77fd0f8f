/** Whole runs of the indexer as a state machine: sessions that start, fetch,
    write and commit one statement at a time, roll back reorgs, fail, and crash
    anywhere. Only `ledger` survives a crash. */
module Runs {
  import opened Prelude
  import opened Chain
  import opened Sql
  import opened Handlers
  import opened BlockTable
  import opened ForkPoint
  import opened Ledgers

  /** What the process holds in memory, an open transaction's view included. */
  datatype Phase =
    | Down
    | Idle(next: nat)
    | Writing(batch: seq<Block>, handlersDone: nat, tables: Tables)
    | Marking(batch: seq<Block>, blocksDone: nat, tables: Tables, rows: Rows)

  datatype State = State(ledger: Ledger, phase: Phase)

  datatype Event =
    | Restart
    | Begin(batch: seq<Block>)
    | HandlerWrites
    | HandlerFails
    | CursorSet
    | Committed
    | Reorg(chain: seq<Block>)
    | ReorgRefused(chain: seq<Block>)
    | Crash

  /** What a committed transaction publishes: its own view of the database. */
  function Publish(l: Ledger, s: Setup, bs: seq<Block>, tables: Tables, rows: Rows): Ledger
    requires 0 < |bs|
  {
    Advance(l, s, bs, tables).(rows := rows)
  }

  ghost predicate Step(s: Setup, x: State, e: Event, y: State) {
    match e
    case Restart =>
      x.phase.Down? && y == State(Reopen(x.ledger, s), Idle(Resume(x.ledger.rows, s.start)))
    case Begin(bs) =>
      && x.phase.Idle? && 0 < |bs| && IsBatch(bs, x.phase.next) && x.phase.next + |bs| <= MAX_U32
      && !Diverged(x.ledger.rows, bs[0])
      && y == x.(phase := Writing(bs, 0, x.ledger.tables))
    case HandlerWrites =>
      && x.phase.Writing? && x.phase.handlersDone < |s.handlers|
      && var w := BatchWrite(s.handlers[x.phase.handlersDone], x.phase.batch)(x.phase.tables);
      && w.Ok?
      && y == x.(phase := Writing(x.phase.batch, x.phase.handlersDone + 1, w.value))
    case HandlerFails =>
      && x.phase.Writing? && x.phase.handlersDone < |s.handlers|
      && BatchWrite(s.handlers[x.phase.handlersDone], x.phase.batch)(x.phase.tables).Err?
      && y == x.(phase := Down)
    case CursorSet =>
      || (&& x.phase.Writing? && x.phase.handlersDone == |s.handlers| && 0 < |x.phase.batch|
          && y == x.(phase := Marking(x.phase.batch, 1, x.phase.tables,
                                      SetCursor(x.ledger.rows, x.phase.batch[0], s.retention))))
      || (&& x.phase.Marking? && x.phase.blocksDone < |x.phase.batch|
          && y == x.(phase := Marking(x.phase.batch, x.phase.blocksDone + 1, x.phase.tables,
                                      SetCursor(x.phase.rows, x.phase.batch[x.phase.blocksDone], s.retention))))
    case Committed =>
      && x.phase.Marking? && x.phase.blocksDone == |x.phase.batch| && 0 < |x.phase.batch|
      && y == State(Publish(x.ledger, s, x.phase.batch, x.phase.tables, x.phase.rows),
                    Idle(x.phase.batch[|x.phase.batch| - 1].number + 1))
    case Reorg(chain) =>
      && x.phase.Idle? && IsChain(chain) && TipDiverged(x.ledger.rows, x.phase.next, chain)
      && !TooDeep(x.ledger.rows, chain, x.phase.next - 1, s.maxDepth, x.phase.next - 1)
      && var f := ForkOf(x.ledger.rows, chain, x.phase.next - 1);
      && y == State(Rewind(x.ledger, f), Idle(f + 1))
    case ReorgRefused(chain) =>
      && x.phase.Idle? && IsChain(chain) && TipDiverged(x.ledger.rows, x.phase.next, chain)
      && TooDeep(x.ledger.rows, chain, x.phase.next - 1, s.maxDepth, x.phase.next - 1)
      && y == x.(phase := Down)
    case Crash =>
      y == x.(phase := Down)
  }

  /** A run from a fresh database. */
  ghost predicate IsRun(s: Setup, states: seq<State>, events: seq<Event>) {
    && |states| == |events| + 1
    && states[0] == State(Fresh(s), Down)
    && forall i, j :: 0 <= i < |events| && j == i + 1 ==> Step(s, states[i], events[i], states[j])
  }

  // ---- The invariant of every reachable state ----

  ghost predicate PhaseInv(s: Setup, x: State) {
    match x.phase
    case Down => true
    case Idle(next) => next == x.ledger.next
    case Writing(bs, k, t) =>
      CanCommit(x.ledger, bs) && k <= |s.handlers| && RunHandlers(s.handlers[..k], bs)(x.ledger.tables) == Ok(t)
    case Marking(bs, j, t, rows) =>
      && CanCommit(x.ledger, bs) && 0 < j <= |bs|
      && RunHandlers(s.handlers, bs)(x.ledger.tables) == Ok(t)
      && rows == SetAll(x.ledger.rows, bs[..j], s.retention)
  }

  ghost predicate StateInv(s: Setup, x: State) {
    Inv(x.ledger, s) && PhaseInv(s, x)
  }

  /** Every step changes the database by one engine step or not at all: the
      statements of an open transaction, a failure and a crash leave it as it was. */
  lemma StepRefinesEngine(s: Setup, x: State, e: Event, y: State)
    requires StateInv(s, x) && Step(s, x, e, y)
    ensures e.Restart? ==> y.ledger == Reopen(x.ledger, s)
    ensures e.Committed? || e.Reorg? ==> EngineStep(x.ledger, y.ledger, s)
    ensures !e.Restart? && !e.Committed? && !e.Reorg? ==> y.ledger == x.ledger
  {
    match e
    case Committed =>
      var bs := x.phase.batch;
      assert bs[..|bs|] == bs;
      assert Commit(x.ledger, s, bs) == Ok(y.ledger);
    case Reorg(chain) =>
      var f := ForkOf(x.ledger.rows, chain, x.phase.next - 1);
      ForkStaysNear(x.ledger.rows, chain, x.ledger.lo, x.ledger.next, x.phase.next - 1);
      assert CanRewind(x.ledger, f);
    case _ =>
  }

  lemma StepKeepsStateInv(s: Setup, x: State, e: Event, y: State)
    requires StateInv(s, x) && Step(s, x, e, y)
    ensures StateInv(s, y)
  {
    StepRefinesEngine(s, x, e, y);
    match e
    case Restart =>
      ReopenKeepsInv(x.ledger, s);
    case Committed =>
      StepKeepsInv(x.ledger, y.ledger, s);
    case Reorg(_) =>
      StepKeepsInv(x.ledger, y.ledger, s);
    case HandlerWrites =>
      HandlerKeepsPhaseInv(s, x, y);
    case CursorSet =>
      CursorSetKeepsPhaseInv(s, x, y);
    case _ =>
  }

  lemma HandlerKeepsPhaseInv(s: Setup, x: State, y: State)
    requires StateInv(s, x) && Step(s, x, HandlerWrites, y)
    ensures PhaseInv(s, y)
  {
    var k := x.phase.handlersDone;
    assert s.handlers[..k + 1][..k] == s.handlers[..k];
  }

  lemma CursorSetKeepsPhaseInv(s: Setup, x: State, y: State)
    requires StateInv(s, x) && Step(s, x, CursorSet, y)
    ensures PhaseInv(s, y)
  {
    var bs := x.phase.batch;
    if x.phase.Writing? {
      assert s.handlers[..|s.handlers|] == s.handlers;
      assert bs[..1][..0] == [];
      assert SetAll(x.ledger.rows, bs[..1], s.retention)
          == SetCursor(SetAll(x.ledger.rows, [], s.retention), bs[0], s.retention);
    } else {
      var j := x.phase.blocksDone;
      assert bs[..j + 1][..j] == bs[..j];
    }
  }

  lemma {:induction false} ReachableInv(s: Setup, states: seq<State>, events: seq<Event>, i: nat)
    requires IsRun(s, states, events) && i < |states|
    ensures StateInv(s, states[i])
  {
    if i == 0 {
      FreshKeepsInv(s);
    } else {
      ReachableInv(s, states, events, i - 1);
      StepKeepsStateInv(s, states[i - 1], events[i - 1], states[i]);
    }
  }

  lemma {:induction false} RollbacksAreReorgs(s: Setup, states: seq<State>, events: seq<Event>, i: nat)
    requires IsRun(s, states, events) && i < |states|
    requires forall j :: 0 <= j < i ==> !events[j].Reorg?
    ensures states[i].ledger.rollbacks == 0
  {
    if i > 0 {
      RollbacksAreReorgs(s, states, events, i - 1);
      ReachableInv(s, states, events, i - 1);
      StepRefinesEngine(s, states[i - 1], events[i - 1], states[i]);
    }
  }

  // ---- Every step of the engine is a run ----

  function Last(states: seq<State>): State
    requires 0 < |states|
  {
    states[|states| - 1]
  }

  lemma RunGrows(s: Setup, states: seq<State>, events: seq<Event>, e: Event, y: State)
    requires IsRun(s, states, events) && Step(s, Last(states), e, y)
    ensures IsRun(s, states + [y], events + [e])
  {
    hide Step;
  }

  lemma HandlerCanWrite(s: Setup, x: State) returns (y: State)
    requires PhaseInv(s, x) && x.phase.Writing? && x.phase.handlersDone < |s.handlers|
    requires RunHandlers(s.handlers, x.phase.batch)(x.ledger.tables).Ok?
    ensures Step(s, x, HandlerWrites, y) && y.ledger == x.ledger
    ensures y.phase.Writing? && y.phase.batch == x.phase.batch && y.phase.handlersDone == x.phase.handlersDone + 1
  {
    hide CanCommit, BatchWrite;
    var k, bs := x.phase.handlersDone, x.phase.batch;
    assert s.handlers[..k + 1][..k] == s.handlers[..k];
    if RunHandlers(s.handlers[..k + 1], bs)(x.ledger.tables).Err? {
      PrefixFails(s.handlers, bs, x.ledger.tables, k + 1);
    }
    y := x.(phase := Writing(bs, k + 1, RunHandlers(s.handlers[..k + 1], bs)(x.ledger.tables).value));
  }

  lemma {:induction false} HandlersCanFinish(s: Setup, states: seq<State>, events: seq<Event>)
    returns (states': seq<State>, events': seq<Event>)
    requires IsRun(s, states, events) && Last(states).phase.Writing?
    requires RunHandlers(s.handlers, Last(states).phase.batch)(Last(states).ledger.tables).Ok?
    ensures IsRun(s, states', events') && events <= events'
    ensures var l, bs := Last(states).ledger, Last(states).phase.batch;
            Last(states') == State(l, Writing(bs, |s.handlers|, RunHandlers(s.handlers, bs)(l.tables).value))
    decreases |s.handlers| - Last(states).phase.handlersDone
  {
    ReachableInv(s, states, events, |states| - 1);
    hide IsRun, Step, Inv, RunHandlers;
    var x := Last(states);
    if x.phase.handlersDone == |s.handlers| {
      assert s.handlers[..|s.handlers|] == s.handlers;
      return states, events;
    }
    var y := HandlerCanWrite(s, x);
    RunGrows(s, states, events, HandlerWrites, y);
    states', events' := HandlersCanFinish(s, states + [y], events + [HandlerWrites]);
  }

  lemma {:induction false} MarksCanFinish(s: Setup, states: seq<State>, events: seq<Event>)
    returns (states': seq<State>, events': seq<Event>)
    requires IsRun(s, states, events) && Last(states).phase.Marking?
    ensures IsRun(s, states', events') && events <= events'
    ensures var x := Last(states);
            Last(states') == State(x.ledger, Marking(x.phase.batch, |x.phase.batch|, x.phase.tables,
                                                     SetAll(x.ledger.rows, x.phase.batch, s.retention)))
    decreases |Last(states).phase.batch| - Last(states).phase.blocksDone
  {
    ReachableInv(s, states, events, |states| - 1);
    hide IsRun, Inv;
    var x := Last(states);
    var j, bs := x.phase.blocksDone, x.phase.batch;
    if j == |bs| {
      assert bs[..j] == bs;
      return states, events;
    }
    var y := x.(phase := Marking(bs, j + 1, x.phase.tables, SetCursor(x.phase.rows, bs[j], s.retention)));
    RunGrows(s, states, events, CursorSet, y);
    states', events' := MarksCanFinish(s, states + [y], events + [CursorSet]);
  }

  lemma WrittenCanCommit(s: Setup, l: Ledger, bs: seq<Block>)
    requires CanCommit(l, bs) && Commit(l, s, bs).Ok?
    ensures var t, l' := RunHandlers(s.handlers, bs)(l.tables).value, Commit(l, s, bs).value;
            Step(s, State(l, Marking(bs, |bs|, t, SetAll(l.rows, bs, s.retention))), Committed,
                State(l', Idle(l'.next)))
  {
    hide SetAll, PruneFloor, Diverged;
    assert bs[|bs| - 1].number == l.next + |bs| - 1;
  }

  /** What `Runs` can reach is no less than what the engine does: every batch the
      engine can commit, with handlers of any number, is committed by some run,
      statement by statement. */
  lemma EveryCommitIsARun(s: Setup, states: seq<State>, events: seq<Event>, bs: seq<Block>)
    returns (states': seq<State>, events': seq<Event>)
    requires IsRun(s, states, events) && Last(states).phase.Idle?
    requires CanCommit(Last(states).ledger, bs) && Commit(Last(states).ledger, s, bs).Ok?
    ensures IsRun(s, states', events') && events <= events' && 0 < |states'|
    ensures var l' := Commit(Last(states).ledger, s, bs).value; Last(states') == State(l', Idle(l'.next))
  {
    ReachableInv(s, states, events, |states| - 1);
    hide IsRun, Inv, IsBatch, Diverged, SetAll, Advance;
    var x := Last(states);
    var l := x.ledger;
    var y := x.(phase := Writing(bs, 0, l.tables));
    RunGrows(s, states, events, Begin(bs), y);
    states', events' := HandlersCanFinish(s, states + [y], events + [Begin(bs)]);
    var t := RunHandlers(s.handlers, bs)(l.tables).value;
    var z := State(l, Marking(bs, 1, t, SetCursor(l.rows, bs[0], s.retention)));
    RunGrows(s, states', events', CursorSet, z);
    states', events' := MarksCanFinish(s, states' + [z], events' + [CursorSet]);
    WrittenCanCommit(s, l, bs);
    var l' := Commit(l, s, bs).value;
    RunGrows(s, states', events', Committed, State(l', Idle(l'.next)));
    states', events' := states' + [State(l', Idle(l'.next))], events' + [Committed];
  }

  // ---- What holds in every reachable state ----

  /** Resumability and atomicity. However the run was cut up into batches, and
      wherever it failed, crashed and restarted, as long as no reorg was rolled
      back the entity tables are the handlers applied to one linked log of
      blocks that starts at the start height and ends at the cursor, cut into
      batches: each height exactly once, none skipped, none half-applied. For
      independent handlers the cut does not matter. */
  lemma CrashRefinement(s: Setup, states: seq<State>, events: seq<Event>, i: nat)
    requires IsRun(s, states, events) && i < |states|
    requires forall j :: 0 <= j < i ==> !events[j].Reorg?
    ensures var l := states[i].ledger;
            && IsBatch(l.applied, s.start)
            && Cursor(l.rows) == (if |l.applied| == 0 then None else Some(l.applied[|l.applied| - 1].number))
            && (exists batches: seq<seq<Block>> ::
                  IsCut(batches, l.applied) && AllBatches(s.handlers, batches, s.initial, l.tables))
            && (Independent(s.handlers) ==> AllBlocks(s.handlers, l.applied, s.initial, l.tables))
  {
    hide Independent, IsCut, RunBatches, RunBlocks, AllBatches, AllBlocks;
    RollbacksAreReorgs(s, states, events, i);
    ReachableInv(s, states, events, i);
    var l := states[i].ledger;
    CursorOfSpan(l.rows, l.lo, l.next);
    var batches: seq<seq<Block>> :|
      IsCut(batches, l.applied) && RunBatches(s.handlers, batches)(s.initial) == Ok(l.tables);
    RunBatchesIff(s.handlers, batches, s.initial, l.tables);
    if Independent(s.handlers) {
      TablesAreBlocks(l, s);
      RunBlocksIff(s.handlers, l.applied, s.initial, l.tables);
    }
  }

  /** A crash, a handler's error and a refused reorg end the session: what an open
      transaction has written is gone, and the next session starts from what the
      last commit left. */
  lemma CrashForgets(s: Setup, states: seq<State>, events: seq<Event>, i: nat)
    requires IsRun(s, states, events) && i + 1 < |events|
    requires events[i].Crash? || events[i].HandlerFails? || events[i].ReorgRefused?
    ensures var l := states[i].ledger;
            || (events[i + 1].Restart? && states[i + 2] == State(Reopen(l, s), Idle(Resume(l.rows, s.start))))
            || (events[i + 1].Crash? && states[i + 2] == State(l, Down))
  {
    assert Step(s, states[i], events[i], states[i + 1]) && Step(s, states[i + 1], events[i + 1], states[i + 2]);
  }

  /** A reorg takes away the rows above the fork, no more of them than the depth bound
      allows, and leaves the entity tables as they are. */
  lemma RollbackIsBounded(s: Setup, states: seq<State>, events: seq<Event>, i: nat)
    requires IsRun(s, states, events) && i < |events| && events[i].Reorg?
    ensures var l, l' := states[i].ledger, states[i + 1].ledger;
            && l'.tables == l.tables
            && (forall h: u32 :: h in l'.rows ==> h in l.rows && l'.rows[h] == l.rows[h])
            && (s.maxDepth != 0 ==> |l.rows| - |l'.rows| <= s.maxDepth)
  {
    hide Inv, StopsAt, IsFork;
    ReachableInv(s, states, events, i);
    var x := states[i];
    var l, chain := x.ledger, events[i].chain;
    ShapeOfInv(s, x);
    assert Step(s, x, events[i], states[i + 1]);
    var f := ForkOf(l.rows, chain, l.next - 1);
    ForkStaysNear(l.rows, chain, l.lo, l.next, l.next - 1);
    RollbackDeletes(l.rows, l.lo, l.next, f);
  }

  lemma ShapeOfInv(s: Setup, x: State)
    requires StateInv(s, x)
    ensures ShapeInv(x.ledger) && (x.phase.Idle? ==> x.phase.next == x.ledger.next)
  {
  }

  /** The stored heights are one interval that ends at the cursor, and each row
      names the hash of the row below it. */
  lemma ChainInvariant(s: Setup, states: seq<State>, events: seq<Event>, i: nat, g: u32, h: u32, m: u32)
    requires IsRun(s, states, events) && i < |states|
    requires g in states[i].ledger.rows && h in states[i].ledger.rows && g < m <= h
    ensures var rows := states[i].ledger.rows;
            m in rows && (m - 1) in rows && rows[m].parent == rows[m - 1].hash
  {
    ReachableInv(s, states, events, i);
  }

  /** The table is bounded, and holds every height within `retention` of every block
      ever committed, up to the cursor. */
  lemma RetentionBound(s: Setup, states: seq<State>, events: seq<Event>, i: nat)
    requires IsRun(s, states, events) && i < |states|
    ensures var l := states[i].ledger;
            && (s.retention > 0 ==> |l.rows| <= s.retention + 1)
            && forall h: u32 :: s.start <= h < l.next
                 && (s.retention == 0 || forall i :: 0 <= i < |l.applied| ==> l.applied[i].number - s.retention <= h)
                 ==> h in l.rows
  {
    ReachableInv(s, states, events, i);
    var l := states[i].ledger;
    SpanSize(l.rows, l.lo, l.next);
  }

  /** In memory and on disk, a running session always stands at the same height,
      unless a reorg has just emptied a table that had been pruned. */
  lemma PositionsAgree(s: Setup, states: seq<State>, events: seq<Event>, i: nat)
    requires IsRun(s, states, events) && i < |states| && states[i].phase.Idle?
    ensures states[i].phase.next == Resume(states[i].ledger.rows, s.start)
       <==> states[i].ledger.rows != map[] || states[i].ledger.lo == s.start
  {
    ReachableInv(s, states, events, i);
    PositionIsDurableIff(states[i].ledger, s);
  }

  /** The fork of a reorg is never looked for in pruned ground when the bound on
      its depth, counted from every block ever committed, fits the retention. */
  lemma ForkIsRetained(s: Setup, states: seq<State>, events: seq<Event>, i: nat, chain: seq<Block>)
    requires IsRun(s, states, events) && i < |states|
    requires var x := states[i];
             && x.phase.Idle? && IsChain(chain) && TipDiverged(x.ledger.rows, x.phase.next, chain)
             && !TooDeep(x.ledger.rows, chain, x.phase.next - 1, s.maxDepth, x.phase.next - 1)
    requires s.retention == 0
          || (s.maxDepth != 0 && forall j :: 0 <= j < |states[i].ledger.applied| ==>
                states[i].ledger.applied[j].number + 1 - states[i].ledger.next + s.maxDepth <= s.retention)
    ensures var f := ForkOf(states[i].ledger.rows, chain, states[i].phase.next - 1);
            f in states[i].ledger.rows || f < s.start
  {
    ReachableInv(s, states, events, i);
    var l := states[i].ledger;
    var f := ForkOf(l.rows, chain, l.next - 1);
    ForkStaysNear(l.rows, chain, l.lo, l.next, l.next - 1);
  }
}
