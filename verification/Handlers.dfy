/** Handlers as transformers of the entity tables, and what it takes for the
    engine's batched, two-phase schedule to mean the same as block by block. */
module Handlers {
  import opened Prelude
  import opened Chain
  import opened Sql

  /** A fallible write on the transaction's view of the tables. */
  type Write = Tables -> Result<Tables>

  /** A handler: its per-block write, a batch write if it overrides the default,
      and its compute phase. `owned` names the tables it reads and writes. */
  datatype Handler = Handler(
    name: string,
    owned: set<string>,
    processBlock: Block -> Write,
    processBatch: Option<seq<Block> -> Write>,
    prepare: seq<Block> -> Result<Option<Write>>)

  // ---- Composing writes ----

  function Skip(): Write {
    (t: Tables) => Ok(t)
  }

  function Then(f: Write, g: Write): Write {
    (t: Tables) => match f(t) case Ok(u) => g(u) case Err(e) => Err(e)
  }

  /** The default `process_batch`: `process_block` on each block in order. */
  function EachBlock(p: Block -> Write, bs: seq<Block>): Write {
    if |bs| == 0 then Skip()
    else Then(EachBlock(p, bs[..|bs| - 1]), p(bs[|bs| - 1]))
  }

  /** What one handler contributes to a batch: its prepared write when it has a
      compute phase, otherwise its batch path. */
  function BatchWrite(h: Handler, bs: seq<Block>): Write {
    match h.prepare(bs)
    case Err(e) => (t: Tables) => Err(e)
    case Ok(None) =>
      (match h.processBatch
       case Some(f) => f(bs)
       case None => EachBlock(h.processBlock, bs))
    case Ok(Some(w)) => w
  }

  /** Handler-major: each handler over the whole batch, in handler order. */
  function RunHandlers(hs: seq<Handler>, bs: seq<Block>): Write {
    if |hs| == 0 then Skip()
    else Then(RunHandlers(hs[..|hs| - 1], bs), BatchWrite(hs[|hs| - 1], bs))
  }

  /** Every handler on one block, in handler order. */
  function RunBlock(hs: seq<Handler>, b: Block): Write {
    if |hs| == 0 then Skip()
    else Then(RunBlock(hs[..|hs| - 1], b), hs[|hs| - 1].processBlock(b))
  }

  /** Block-major: every handler on each block, in block order. */
  function RunBlocks(hs: seq<Handler>, bs: seq<Block>): Write {
    if |bs| == 0 then Skip()
    else Then(RunBlocks(hs, bs[..|bs| - 1]), RunBlock(hs, bs[|bs| - 1]))
  }

  /** Batch after batch, each of them handler-major: what committed batches do. */
  function RunBatches(hs: seq<Handler>, batches: seq<seq<Block>>): Write {
    if |batches| == 0 then Skip()
    else Then(RunBatches(hs, batches[..|batches| - 1]), RunHandlers(hs, batches[|batches| - 1]))
  }

  /** The blocks of the batches, in order. */
  function Joined(batches: seq<seq<Block>>): seq<Block> {
    if |batches| == 0 then [] else Joined(batches[..|batches| - 1]) + batches[|batches| - 1]
  }

  // ---- What a composite does, step by step ----

  /** Each write takes the tables from one state to the next. */
  ghost predicate Through(ws: seq<Write>, ts: seq<Tables>) {
    |ts| == |ws| + 1 && forall i :: 0 <= i < |ws| ==> ws[i](ts[i]) == Ok(ts[i + 1])
  }

  /** The writes, one after another and each succeeding, lead from `t` to `u`. */
  ghost predicate Leads(ws: seq<Write>, t: Tables, u: Tables) {
    exists ts: seq<Tables> :: Through(ws, ts) && ts[0] == t && ts[|ws|] == u
  }

  function WriteOf(h: Handler, b: Block): Write {
    h.processBlock(b)
  }

  /** The per-block writes of a handler, in block order. */
  function PerBlock(h: Handler, bs: seq<Block>): seq<Write> {
    seq(|bs|, (i: int) requires 0 <= i < |bs| => WriteOf(h, bs[i]))
  }

  /** The per-block writes of all handlers, in handler order. */
  function PerHandler(hs: seq<Handler>, b: Block): seq<Write> {
    seq(|hs|, (i: int) requires 0 <= i < |hs| => WriteOf(hs[i], b))
  }

  /** The write phase of one handler: the write it prepared; if it prepared none,
      its own batch path; if it has none, `process_block` on each block in order. */
  ghost predicate Writes(h: Handler, bs: seq<Block>, t: Tables, u: Tables) {
    match h.prepare(bs)
    case Err(_) => false
    case Ok(Some(w)) => w(t) == Ok(u)
    case Ok(None) =>
      match h.processBatch
      case Some(batch) => batch(bs)(t) == Ok(u)
      case None => Leads(PerBlock(h, bs), t, u)
  }

  /** Every handler's write phase, in handler order. */
  ghost predicate WritesThrough(hs: seq<Handler>, bs: seq<Block>, ts: seq<Tables>) {
    |ts| == |hs| + 1 && forall i :: 0 <= i < |hs| ==> Writes(hs[i], bs, ts[i], ts[i + 1])
  }

  ghost predicate AllWrite(hs: seq<Handler>, bs: seq<Block>, t: Tables, u: Tables) {
    exists ts: seq<Tables> :: WritesThrough(hs, bs, ts) && ts[0] == t && ts[|hs|] == u
  }

  /** Every block in order, each through every handler in order. */
  ghost predicate BlocksThrough(hs: seq<Handler>, bs: seq<Block>, ts: seq<Tables>) {
    |ts| == |bs| + 1 && forall i :: 0 <= i < |bs| ==> Leads(PerHandler(hs, bs[i]), ts[i], ts[i + 1])
  }

  ghost predicate AllBlocks(hs: seq<Handler>, bs: seq<Block>, t: Tables, u: Tables) {
    exists ts: seq<Tables> :: BlocksThrough(hs, bs, ts) && ts[0] == t && ts[|bs|] == u
  }

  /** Every batch in order, each through every handler in order. */
  ghost predicate BatchesThrough(hs: seq<Handler>, batches: seq<seq<Block>>, ts: seq<Tables>) {
    |ts| == |batches| + 1 && forall i :: 0 <= i < |batches| ==> AllWrite(hs, batches[i], ts[i], ts[i + 1])
  }

  ghost predicate AllBatches(hs: seq<Handler>, batches: seq<seq<Block>>, t: Tables, u: Tables) {
    exists ts: seq<Tables> :: BatchesThrough(hs, batches, ts) && ts[0] == t && ts[|batches|] == u
  }

  lemma LeadsNowhere(t: Tables, u: Tables)
    ensures Leads([], t, u) <==> t == u
  {
    if t == u {
      assert Through([], [t]);
    }
  }

  lemma LeadsOneMore(ws: seq<Write>, w: Write, t: Tables, u: Tables)
    ensures Leads(ws + [w], t, u) <==> exists m: Tables :: Leads(ws, t, m) && w(m) == Ok(u)
  {
    var all := ws + [w];
    if Leads(all, t, u) {
      var ts: seq<Tables> :| Through(all, ts) && ts[0] == t && ts[|all|] == u;
      assert forall i :: 0 <= i < |ws| ==> all[i] == ws[i];
      assert Through(ws, ts[..|all|]);
      assert all[|ws|] == w;
      assert Leads(ws, t, ts[|ws|]) && w(ts[|ws|]) == Ok(u);
    }
    if m: Tables :| Leads(ws, t, m) && w(m) == Ok(u) {
      var ts: seq<Tables> :| Through(ws, ts) && ts[0] == t && ts[|ws|] == m;
      assert Through(all, ts + [u]);
      assert (ts + [u])[|all|] == u;
    }
  }

  lemma {:induction false} EachBlockLeadsIff(h: Handler, bs: seq<Block>, t: Tables, u: Tables)
    ensures EachBlock(h.processBlock, bs)(t) == Ok(u) <==> Leads(PerBlock(h, bs), t, u)
  {
    if |bs| == 0 {
      LeadsNowhere(t, u);
      assert PerBlock(h, bs) == [];
    } else {
      hide Leads;
      var cs, b := bs[..|bs| - 1], bs[|bs| - 1];
      assert PerBlock(h, bs) == PerBlock(h, cs) + [h.processBlock(b)];
      LeadsOneMore(PerBlock(h, cs), h.processBlock(b), t, u);
      forall m: Tables ensures EachBlock(h.processBlock, cs)(t) == Ok(m) <==> Leads(PerBlock(h, cs), t, m) {
        EachBlockLeadsIff(h, cs, t, m);
      }
    }
  }

  lemma {:induction false} RunBlockLeadsIff(hs: seq<Handler>, b: Block, t: Tables, u: Tables)
    ensures RunBlock(hs, b)(t) == Ok(u) <==> Leads(PerHandler(hs, b), t, u)
  {
    if |hs| == 0 {
      LeadsNowhere(t, u);
      assert PerHandler(hs, b) == [];
    } else {
      hide Leads;
      var gs, h := hs[..|hs| - 1], hs[|hs| - 1];
      assert PerHandler(hs, b) == PerHandler(gs, b) + [h.processBlock(b)];
      LeadsOneMore(PerHandler(gs, b), h.processBlock(b), t, u);
      forall m: Tables ensures RunBlock(gs, b)(t) == Ok(m) <==> Leads(PerHandler(gs, b), t, m) {
        RunBlockLeadsIff(gs, b, t, m);
      }
    }
  }

  lemma BatchWriteIff(h: Handler, bs: seq<Block>, t: Tables, u: Tables)
    ensures BatchWrite(h, bs)(t) == Ok(u) <==> Writes(h, bs, t, u)
  {
    EachBlockLeadsIff(h, bs, t, u);
  }

  /** The write phase of a batch, said step by step: it succeeds with `u` exactly
      when the handlers' own writes lead there, in handler order. */
  lemma {:induction false} RunHandlersIff(hs: seq<Handler>, bs: seq<Block>, t: Tables, u: Tables)
    ensures RunHandlers(hs, bs)(t) == Ok(u) <==> AllWrite(hs, bs, t, u)
  {
    hide BatchWrite, Writes;
    if |hs| == 0 {
      if t == u {
        assert WritesThrough(hs, bs, [t]);
      }
    } else {
      var gs, h := hs[..|hs| - 1], hs[|hs| - 1];
      if RunHandlers(hs, bs)(t) == Ok(u) {
        var m := RunHandlers(gs, bs)(t).value;
        RunHandlersIff(gs, bs, t, m);
        BatchWriteIff(h, bs, m, u);
        var ts: seq<Tables> :| WritesThrough(gs, bs, ts) && ts[0] == t && ts[|gs|] == m;
        assert WritesThrough(hs, bs, ts + [u]);
        assert (ts + [u])[|hs|] == u;
      }
      if AllWrite(hs, bs, t, u) {
        var ts: seq<Tables> :| WritesThrough(hs, bs, ts) && ts[0] == t && ts[|hs|] == u;
        assert WritesThrough(gs, bs, ts[..|hs|]);
        RunHandlersIff(gs, bs, t, ts[|gs|]);
        BatchWriteIff(h, bs, ts[|gs|], u);
      }
    }
  }

  /** The same of blocks taken one by one. */
  lemma {:induction false} RunBlocksIff(hs: seq<Handler>, bs: seq<Block>, t: Tables, u: Tables)
    ensures RunBlocks(hs, bs)(t) == Ok(u) <==> AllBlocks(hs, bs, t, u)
  {
    hide RunBlock, Leads;
    if |bs| == 0 {
      if t == u {
        assert BlocksThrough(hs, bs, [t]);
      }
    } else {
      var cs, b := bs[..|bs| - 1], bs[|bs| - 1];
      if RunBlocks(hs, bs)(t) == Ok(u) {
        var m := RunBlocks(hs, cs)(t).value;
        RunBlocksIff(hs, cs, t, m);
        RunBlockLeadsIff(hs, b, m, u);
        var ts: seq<Tables> :| BlocksThrough(hs, cs, ts) && ts[0] == t && ts[|cs|] == m;
        assert BlocksThrough(hs, bs, ts + [u]);
        assert (ts + [u])[|bs|] == u;
      }
      if AllBlocks(hs, bs, t, u) {
        var ts: seq<Tables> :| BlocksThrough(hs, bs, ts) && ts[0] == t && ts[|bs|] == u;
        assert BlocksThrough(hs, cs, ts[..|bs|]);
        RunBlocksIff(hs, cs, t, ts[|cs|]);
        RunBlockLeadsIff(hs, b, ts[|cs|], u);
      }
    }
  }

  /** And of batches committed one after another. */
  lemma {:induction false} RunBatchesIff(hs: seq<Handler>, batches: seq<seq<Block>>, t: Tables, u: Tables)
    ensures RunBatches(hs, batches)(t) == Ok(u) <==> AllBatches(hs, batches, t, u)
  {
    hide RunHandlers, AllWrite;
    if |batches| == 0 {
      if t == u {
        assert BatchesThrough(hs, batches, [t]);
      }
    } else {
      var front, bs := batches[..|batches| - 1], batches[|batches| - 1];
      if RunBatches(hs, batches)(t) == Ok(u) {
        var m := RunBatches(hs, front)(t).value;
        RunBatchesIff(hs, front, t, m);
        RunHandlersIff(hs, bs, m, u);
        var ts: seq<Tables> :| BatchesThrough(hs, front, ts) && ts[0] == t && ts[|front|] == m;
        assert BatchesThrough(hs, batches, ts + [u]);
        assert (ts + [u])[|batches|] == u;
      }
      if AllBatches(hs, batches, t, u) {
        var ts: seq<Tables> :| BatchesThrough(hs, batches, ts) && ts[0] == t && ts[|batches|] == u;
        assert BatchesThrough(hs, front, ts[..|batches|]);
        RunBatchesIff(hs, front, t, ts[|front|]);
        RunHandlersIff(hs, bs, ts[|front|], u);
      }
    }
  }

  // ---- Failure ----

  lemma {:induction false} PrefixFails(hs: seq<Handler>, bs: seq<Block>, t: Tables, k: nat)
    requires k <= |hs| && RunHandlers(hs[..k], bs)(t).Err?
    ensures RunHandlers(hs, bs)(t).Err?
  {
    if k == |hs| {
      assert hs[..k] == hs;
    } else {
      assert hs[..|hs| - 1][..k] == hs[..k];
      PrefixFails(hs[..|hs| - 1], bs, t, k);
    }
  }

  lemma {:induction false} EachPrefixFails(p: Block -> Write, bs: seq<Block>, t: Tables, k: nat)
    requires k <= |bs| && EachBlock(p, bs[..k])(t).Err?
    ensures EachBlock(p, bs)(t).Err?
  {
    if k == |bs| {
      assert bs[..k] == bs;
    } else {
      assert bs[..|bs| - 1][..k] == bs[..k];
      EachPrefixFails(p, bs[..|bs| - 1], t, k);
    }
  }

  lemma {:induction false} BlockPrefixFails(hs: seq<Handler>, b: Block, t: Tables, k: nat)
    requires k <= |hs| && RunBlock(hs[..k], b)(t).Err?
    ensures RunBlock(hs, b)(t).Err?
  {
    if k == |hs| {
      assert hs[..k] == hs;
    } else {
      assert hs[..|hs| - 1][..k] == hs[..k];
      BlockPrefixFails(hs[..|hs| - 1], b, t, k);
    }
  }

  /** A handler that fails to prepare fails the batch. */
  lemma {:induction false} PrepareFails(hs: seq<Handler>, bs: seq<Block>, t: Tables, i: nat)
    requires i < |hs| && hs[i].prepare(bs).Err?
    ensures RunHandlers(hs, bs)(t).Err?
  {
    assert hs[..i + 1][..i] == hs[..i];
    PrefixFails(hs, bs, t, i + 1);
  }

  // ---- Ownership ----

  ghost predicate AgreeOn(t: Tables, u: Tables, s: set<string>) {
    forall n :: n in s ==> (n in t <==> n in u) && (n in t ==> t[n] == u[n])
  }

  ghost predicate AgreeOff(t: Tables, u: Tables, s: set<string>) {
    forall n :: n !in s ==> (n in t <==> n in u) && (n in t ==> t[n] == u[n])
  }

  /** A write that changes only tables in `s`, and depends only on them. */
  ghost predicate Confined(f: Write, s: set<string>) {
    && (forall t: Tables :: f(t).Ok? ==> AgreeOff(f(t).value, t, s))
    && (forall t: Tables, u: Tables :: AgreeOn(t, u, s) ==>
          && f(t).Ok? == f(u).Ok?
          && (f(t).Ok? ==> AgreeOn(f(t).value, f(u).value, s)))
  }

  /** Writes that agree on every input, up to which error is reported. */
  ghost predicate Equiv(f: Write, g: Write) {
    forall t: Tables :: Same(f(t), g(t))
  }

  /** Where `f` succeeds, `g` succeeds with the same result. */
  ghost predicate Refines(f: Write, g: Write) {
    forall t: Tables :: f(t).Ok? ==> g(t) == f(t)
  }

  /** The contract of one handler: it keeps to its own tables, and its batch path
      or prepared write, when it succeeds, has done what `process_block` on each
      block would have done. It may fail where they would not. */
  ghost predicate Lawful(h: Handler) {
    && (forall b: Block :: Confined(h.processBlock(b), h.owned))
    && (forall bs: seq<Block> :: Refines(BatchWrite(h, bs), EachBlock(h.processBlock, bs)))
  }

  /** Lawful handlers that own disjoint tables. */
  ghost predicate Independent(hs: seq<Handler>) {
    && (forall i :: 0 <= i < |hs| ==> Lawful(hs[i]))
    && (forall i, j :: 0 <= i < j < |hs| ==> hs[i].owned !! hs[j].owned)
  }

  /** On this batch every handler also fails exactly when its blocks would. */
  ghost predicate Exact(hs: seq<Handler>, bs: seq<Block>) {
    forall i :: 0 <= i < |hs| ==> Equiv(BatchWrite(hs[i], bs), EachBlock(hs[i].processBlock, bs))
  }

  ghost function Owned(hs: seq<Handler>): set<string> {
    if |hs| == 0 then {} else Owned(hs[..|hs| - 1]) + hs[|hs| - 1].owned
  }

  // ---- The algebra ----

  lemma ConfinedThen(f: Write, g: Write, s: set<string>)
    requires Confined(f, s) && Confined(g, s)
    ensures Confined(Then(f, g), s)
  {
  }

  lemma {:induction false} ConfinedWider(f: Write, s: set<string>, wide: set<string>)
    requires Confined(f, s) && s <= wide
    ensures Confined(f, wide)
  {
    forall t: Tables, u: Tables | AgreeOn(t, u, wide)
      ensures f(t).Ok? == f(u).Ok? && (f(t).Ok? ==> AgreeOn(f(t).value, f(u).value, wide))
    {
      assert AgreeOn(t, u, s);
      if f(t).Ok? {
        var v, w := f(t).value, f(u).value;
        assert AgreeOff(v, t, s) && AgreeOff(w, u, s) && AgreeOn(v, w, s);
        forall n | n in wide ensures (n in v <==> n in w) && (n in v ==> v[n] == w[n]) {
          if n !in s {
          }
        }
      }
    }
  }

  /** Writes confined to disjoint tables commute. */
  lemma Commute(f: Write, s: set<string>, g: Write, s': set<string>)
    requires Confined(f, s) && Confined(g, s') && s !! s'
    ensures Equiv(Then(f, g), Then(g, f))
  {
    forall t: Tables ensures Same(Then(f, g)(t), Then(g, f)(t)) {
      if f(t).Ok? {
        var u := f(t).value;
        assert AgreeOff(u, t, s);
        assert AgreeOn(t, u, s');
      }
      if g(t).Ok? {
        var v := g(t).value;
        assert AgreeOff(v, t, s');
        assert AgreeOn(t, v, s);
      }
      if f(t).Ok? && g(t).Ok? {
        SameTables(t, f, s, g, s');
      }
    }
  }

  lemma OffIsOn(t: Tables, u: Tables, s: set<string>, s': set<string>)
    requires AgreeOff(u, t, s) && s !! s'
    ensures AgreeOn(t, u, s')
  {
  }

  /** Two paths of two changes to disjoint tables end at the same place. */
  lemma Confluent(t: Tables, u: Tables, v: Tables, x: Tables, y: Tables, s: set<string>, s': set<string>)
    requires s !! s' && AgreeOff(u, t, s) && AgreeOff(x, u, s') && AgreeOff(v, t, s') && AgreeOff(y, v, s)
    requires AgreeOn(v, x, s') && AgreeOn(u, y, s)
    ensures x == y
  {
  }

  lemma SameTables(t: Tables, f: Write, s: set<string>, g: Write, s': set<string>)
    requires Confined(f, s) && Confined(g, s') && s !! s'
    requires f(t).Ok? && g(t).Ok? && g(f(t).value).Ok? && f(g(t).value).Ok?
    ensures g(f(t).value).value == f(g(t).value).value
  {
    hide AgreeOn, AgreeOff;
    var u, v := f(t).value, g(t).value;
    OffIsOn(t, u, s, s');
    OffIsOn(t, v, s', s);
    Confluent(t, u, v, g(u).value, f(v).value, s, s');
  }

  lemma ThenCongruent(f: Write, f': Write, g: Write, g': Write)
    requires Equiv(f, f') && Equiv(g, g')
    ensures Equiv(Then(f, g), Then(f', g'))
  {
  }

  lemma Associate(f: Write, g: Write, h: Write)
    ensures Equiv(Then(Then(f, g), h), Then(f, Then(g, h)))
  {
  }

  lemma Chained(f: Write, g: Write, h: Write)
    requires Equiv(f, g) && Equiv(g, h)
    ensures Equiv(f, h)
  {
  }

  lemma {:induction false} EachBlockConfined(h: Handler, bs: seq<Block>)
    requires Lawful(h)
    ensures Confined(EachBlock(h.processBlock, bs), h.owned)
  {
    if |bs| > 0 {
      EachBlockConfined(h, bs[..|bs| - 1]);
      ConfinedThen(EachBlock(h.processBlock, bs[..|bs| - 1]), h.processBlock(bs[|bs| - 1]), h.owned);
    }
  }

  lemma {:induction false} RunBlockConfined(hs: seq<Handler>, b: Block)
    requires Independent(hs)
    ensures Confined(RunBlock(hs, b), Owned(hs))
  {
    if |hs| > 0 {
      var gs, h := hs[..|hs| - 1], hs[|hs| - 1];
      RunBlockConfined(gs, b);
      ConfinedWider(RunBlock(gs, b), Owned(gs), Owned(hs));
      ConfinedWider(h.processBlock(b), h.owned, Owned(hs));
      ConfinedThen(RunBlock(gs, b), h.processBlock(b), Owned(hs));
    }
  }

  lemma {:induction false} OwnedDisjoint(hs: seq<Handler>, s: set<string>)
    requires forall i :: 0 <= i < |hs| ==> hs[i].owned !! s
    ensures Owned(hs) !! s
  {
    if |hs| > 0 {
      OwnedDisjoint(hs[..|hs| - 1], s);
    }
  }

  // ---- Handler-major equals block-major ----

  lemma FrontIndependent(gs: seq<Handler>, h: Handler)
    requires Independent(gs + [h])
    ensures Independent(gs) && forall i :: 0 <= i < |gs| ==> gs[i].owned !! h.owned
  {
    var hs := gs + [h];
    forall i | 0 <= i < |gs| ensures Lawful(gs[i]) && gs[i].owned !! h.owned {
      assert hs[i] == gs[i] && hs[|gs|] == h;
    }
    forall i, j | 0 <= i < j < |gs| ensures gs[i].owned !! gs[j].owned { assert hs[i] == gs[i] && hs[j] == gs[j]; }
  }

  /** Peeling the last handler off a block-major run. */
  lemma {:induction false} PeelHandler(gs: seq<Handler>, h: Handler, bs: seq<Block>)
    requires Independent(gs + [h])
    ensures Equiv(RunBlocks(gs + [h], bs), Then(RunBlocks(gs, bs), EachBlock(h.processBlock, bs)))
  {
    var hs := gs + [h];
    assert hs[..|hs| - 1] == gs && hs[|hs| - 1] == h;
    FrontIndependent(gs, h);
    if |bs| > 0 {
      var cs, b := bs[..|bs| - 1], bs[|bs| - 1];
      PeelHandler(gs, h, cs);
      var done, rest, step, last := RunBlocks(gs, cs), EachBlock(h.processBlock, cs), RunBlock(gs, b),
          h.processBlock(b);
      assert Equiv(Then(rest, step), Then(step, rest)) by {
        EachBlockConfined(h, cs);
        RunBlockConfined(gs, b);
        OwnedDisjoint(gs, h.owned);
        Commute(rest, h.owned, step, Owned(gs));
      }
      Reorder(RunBlocks(hs, cs), done, rest, step, last);
      assert RunBlocks(hs, bs) == Then(RunBlocks(hs, cs), Then(step, last));
    }
  }

  lemma Reorder(all: Write, done: Write, rest: Write, step: Write, last: Write)
    requires Equiv(all, Then(done, rest)) && Equiv(Then(rest, step), Then(step, rest))
    ensures Equiv(Then(all, Then(step, last)), Then(Then(done, step), Then(rest, last)))
  {
    forall t: Tables ensures Same(Then(all, Then(step, last))(t), Then(Then(done, step), Then(rest, last))(t)) {
      assert Same(all(t), Then(done, rest)(t));
      if done(t).Ok? {
        var u := done(t).value;
        assert Same(Then(rest, step)(u), Then(step, rest)(u));
      }
    }
  }

  /** A batch that succeeds has the effect of its blocks taken one by one: running
      each handler over the whole batch (through its compute phase if it has one)
      leaves what running every handler on each block in turn leaves. */
  lemma {:induction false} BatchRefinesBlocks(hs: seq<Handler>, bs: seq<Block>)
    requires Independent(hs)
    ensures Refines(RunHandlers(hs, bs), RunBlocks(hs, bs))
  {
    if |hs| == 0 {
      NoHandlers(bs);
      assert hs == [];
    } else {
      var gs, h := hs[..|hs| - 1], hs[|hs| - 1];
      assert gs + [h] == hs;
      FrontIndependent(gs, h);
      BatchRefinesBlocks(gs, bs);
      PeelHandler(gs, h, bs);
      forall t: Tables | RunHandlers(hs, bs)(t).Ok? ensures RunBlocks(hs, bs)(t) == RunHandlers(hs, bs)(t) {
        assert Lawful(hs[|hs| - 1]);
        var u := RunHandlers(gs, bs)(t).value;
        assert EachBlock(h.processBlock, bs)(u) == BatchWrite(h, bs)(u);
        assert Same(RunBlocks(hs, bs)(t), Then(RunBlocks(gs, bs), EachBlock(h.processBlock, bs))(t));
      }
    }
  }

  /** And it fails exactly when they do, if each of its handlers is exact on it. */
  lemma {:induction false} HandlerMajorIsBlockMajor(hs: seq<Handler>, bs: seq<Block>)
    requires Independent(hs) && Exact(hs, bs)
    ensures Equiv(RunHandlers(hs, bs), RunBlocks(hs, bs))
  {
    if |hs| == 0 {
      NoHandlers(bs);
      assert hs == [];
    } else {
      var gs, h := hs[..|hs| - 1], hs[|hs| - 1];
      assert gs + [h] == hs;
      FrontIndependent(gs, h);
      HandlerMajorIsBlockMajor(gs, bs);
      ThenCongruent(RunHandlers(gs, bs), RunBlocks(gs, bs), BatchWrite(h, bs), EachBlock(h.processBlock, bs));
      PeelHandler(gs, h, bs);
      var mid := Then(RunBlocks(gs, bs), EachBlock(h.processBlock, bs));
      Backwards(RunBlocks(hs, bs), mid);
      Chained(RunHandlers(hs, bs), mid, RunBlocks(hs, bs));
    }
  }

  lemma Backwards(f: Write, g: Write)
    requires Equiv(f, g)
    ensures Equiv(g, f)
  {
  }

  lemma {:induction false} NoHandlers(bs: seq<Block>)
    ensures Equiv(RunBlocks([], bs), Skip())
  {
    if |bs| > 0 {
      NoHandlers(bs[..|bs| - 1]);
      ThenCongruent(RunBlocks([], bs[..|bs| - 1]), Skip(), RunBlock([], bs[|bs| - 1]), Skip());
    }
  }

  /** Block-major runs compose. */
  lemma {:induction false} RunBlocksAppend(hs: seq<Handler>, front: seq<Block>, bs: seq<Block>)
    ensures Equiv(RunBlocks(hs, front + bs), Then(RunBlocks(hs, front), RunBlocks(hs, bs)))
  {
    if |bs| == 0 {
      assert front + bs == front;
    } else {
      var cs, b := bs[..|bs| - 1], bs[|bs| - 1];
      var all := front + bs;
      assert all[..|all| - 1] == front + cs && all[|all| - 1] == b;
      RunBlocksAppend(hs, front, cs);
      var f, g, s := RunBlocks(hs, front), RunBlocks(hs, cs), RunBlock(hs, b);
      ThenCongruent(RunBlocks(hs, front + cs), Then(f, g), s, s);
      Associate(f, g, s);
      Chained(RunBlocks(hs, all), Then(Then(f, g), s), Then(f, RunBlocks(hs, bs)));
    }
  }

  /** Independent handlers do not see where the batches were cut. */
  lemma {:induction false} BatchesRefineBlocks(hs: seq<Handler>, batches: seq<seq<Block>>)
    requires Independent(hs)
    ensures Refines(RunBatches(hs, batches), RunBlocks(hs, Joined(batches)))
  {
    if |batches| > 0 {
      hide Independent;
      var front, bs := batches[..|batches| - 1], batches[|batches| - 1];
      BatchesRefineBlocks(hs, front);
      BatchRefinesBlocks(hs, bs);
      RunBlocksAppend(hs, Joined(front), bs);
      forall t: Tables | RunBatches(hs, batches)(t).Ok?
        ensures RunBlocks(hs, Joined(batches))(t) == RunBatches(hs, batches)(t)
      {
        var u := RunBatches(hs, front)(t).value;
        assert RunBlocks(hs, Joined(front))(t) == Ok(u) && RunBlocks(hs, bs)(u) == RunHandlers(hs, bs)(u);
        assert Same(RunBlocks(hs, Joined(front) + bs)(t), Then(RunBlocks(hs, Joined(front)), RunBlocks(hs, bs))(t));
      }
    }
  }
}
