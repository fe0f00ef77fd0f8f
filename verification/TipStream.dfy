/** Following the tip of a chain: what any stream of deliveries leaves, when no
    height is skipped, and what a stream that keeps up with the engine adds to that. */
module TipStream {
  import opened Prelude
  import opened Chain
  import opened BlockTable
  import opened ForkPoint
  import opened Ledgers
  import opened Convergence
  import opened Source

  // ---- Any stream ----

  predicate Brings(d: Delivery) {
    d.batch.Ok? && d.batch.value != []
  }

  /** The blocks are a run of the chain. */
  ghost predicate IsRunOf(blocks: seq<Block>, chain: seq<Block>) {
    && 0 < |blocks| && blocks[0].number + |blocks| <= |chain|
    && blocks == chain[blocks[0].number..blocks[0].number + |blocks|]
  }

  /** The source's contract for the tip: blocks come from the chain of their moment. */
  ghost predicate FromChain(d: Delivery) {
    IsChain(d.chain) && |d.chain| <= MAX_U32 && (Brings(d) ==> IsRunOf(d.batch.value, d.chain))
  }

  /** The rows after one batch: rolled back to the fork, or committed. */
  ghost function Handled(rows: Rows, chain: seq<Block>, bs: seq<Block>, retention: u32): Rows
    requires 0 < |bs|
  {
    if Diverged(rows, bs[0]) then RollbackTo(rows, ForkOf(rows, chain, bs[0].number - 1))
    else SetAll(rows, bs, retention)
  }

  /** The rows after a stream of deliveries, none of them refused. */
  ghost function RowsAfter(rows: Rows, tip: seq<Delivery>, retention: u32): Rows {
    if |tip| == 0 then rows
    else
      var before, d := RowsAfter(rows, tip[..|tip| - 1], retention), tip[|tip| - 1];
      if Brings(d) then Handled(before, d.chain, d.batch.value, retention) else before
  }

  // ---- Skipped heights ----

  /** Every batch of the stream passes the parent check when it comes. */
  ghost predicate AllPass(rows: Rows, tip: seq<Delivery>, retention: u32) {
    forall k :: 0 <= k < |tip| && Brings(tip[k]) ==>
      FromChain(tip[k]) && !Diverged(RowsAfter(rows, tip[..k], retention), tip[k].batch.value[0])
  }

  function Heights(bs: seq<Block>): set<u32> {
    set b | b in bs :: b.number
  }

  /** The heights indexed by then. */
  function IndexedAfter(indexed: set<u32>, tip: seq<Delivery>): set<u32> {
    if |tip| == 0 then indexed
    else
      var before, d := IndexedAfter(indexed, tip[..|tip| - 1]), tip[|tip| - 1];
      if Brings(d) then before + Heights(d.batch.value) else before
  }

  /** Every height from the start to the cursor was indexed. */
  ghost predicate NothingSkipped(rows: Rows, indexed: set<u32>, start: u32) {
    Cursor(rows).Some? && forall h: u32 :: start <= h <= Cursor(rows).value ==> h in indexed
  }

  /** A batch does not start above the height after the cursor. */
  ghost predicate InReach(rows: Rows, d: Delivery) {
    Brings(d) ==> Cursor(rows).Some? && d.batch.value[0].number <= Cursor(rows).value + 1
  }

  lemma HeightsOfRun(blocks: seq<Block>, chain: seq<Block>)
    requires IsChain(chain) && |chain| <= MAX_U32 && IsRunOf(blocks, chain)
    ensures IsBatch(blocks, blocks[0].number)
    ensures forall h: u32 :: h in Heights(blocks) <==> blocks[0].number <= h < blocks[0].number + |blocks|
    ensures blocks[|blocks| - 1].number == blocks[0].number + |blocks| - 1
  {
    var from := blocks[0].number;
    SliceIsBatch(chain, 0, from, from + |blocks|);
    forall h: u32 | from <= h < from + |blocks| ensures h in Heights(blocks) {
      assert blocks[h - from].number == h && blocks[h - from] in blocks;
    }
  }

  /** A committed batch moves the cursor to its last height, unless it is higher already. */
  lemma CursorAfter(rows: Rows, bs: seq<Block>, from: int, retention: u32)
    requires IsBatch(bs, from) && 0 < |bs| && Cursor(rows).Some?
    ensures Cursor(SetAll(rows, bs, retention)) == Some(Max(Cursor(rows).value, bs[|bs| - 1].number))
  {
    var after, c, last := SetAll(rows, bs, retention), Cursor(rows).value, bs[|bs| - 1].number;
    forall h: u32 ensures h in after ==> h <= Max(c, last) {
      SetAllAt(rows, bs, from, retention, h);
    }
    SetAllAt(rows, bs, from, retention, last);
    SetAllAt(rows, bs, from, retention, c);
    assert IsHighest(after.Keys, Max(c, last));
  }

  /** The indexed heights are those up to the cursor, but for the ones skipped. */
  lemma {:induction false} IndexedUpToCursor(rows: Rows, indexed: set<u32>, tip: seq<Delivery>, retention: u32)
    requires Cursor(rows).Some? && AllPass(rows, tip, retention) && forall h :: h in indexed ==> h <= Cursor(rows).value
    ensures var c := Cursor(RowsAfter(rows, tip, retention));
            c.Some? && forall h :: h in IndexedAfter(indexed, tip) ==> h <= c.value
  {
    if |tip| > 0 {
      var front, d := tip[..|tip| - 1], tip[|tip| - 1];
      AllPassFront(rows, tip, retention);
      IndexedUpToCursor(rows, indexed, front, retention);
      if Brings(d) {
        hide FromChain, IsRunOf, Heights, SetAll;
        RunFacts(d);
        CursorAfter(RowsAfter(rows, front, retention), d.batch.value, d.batch.value[0].number, retention);
      }
    }
  }

  lemma RunFacts(d: Delivery)
    requires Brings(d) && FromChain(d)
    ensures var bs := d.batch.value;
            && IsBatch(bs, bs[0].number) && bs[|bs| - 1].number == bs[0].number + |bs| - 1
            && forall h: u32 :: h in Heights(bs) <==> bs[0].number <= h < bs[0].number + |bs|
  {
    HeightsOfRun(d.batch.value, d.chain);
  }

  lemma AllPassFront(rows: Rows, tip: seq<Delivery>, retention: u32)
    requires AllPass(rows, tip, retention) && 0 < |tip|
    ensures var front, d := tip[..|tip| - 1], tip[|tip| - 1];
            && AllPass(rows, front, retention)
            && (Brings(d) ==> FromChain(d) && !Diverged(RowsAfter(rows, front, retention), d.batch.value[0]))
  {
    hide FromChain, Diverged;
    var front := tip[..|tip| - 1];
    forall k | 0 <= k < |front| ensures front[..k] == tip[..k] {}
  }

  /** One delivery skips nothing exactly when it starts in reach. */
  lemma SkipsNothingIff(rows: Rows, indexed: set<u32>, start: u32, d: Delivery, retention: u32)
    requires NothingSkipped(rows, indexed, start) && start <= Cursor(rows).value + 1
    requires forall h :: h in indexed ==> h <= Cursor(rows).value
    requires Brings(d) && FromChain(d) && !Diverged(rows, d.batch.value[0])
    ensures NothingSkipped(SetAll(rows, d.batch.value, retention), indexed + Heights(d.batch.value), start)
        <==> InReach(rows, d)
  {
    hide FromChain, Heights, SetAll, Diverged;
    var bs := d.batch.value;
    RunFacts(d);
    CursorAfter(rows, bs, bs[0].number, retention);
    if !InReach(rows, d) {
      var skipped: u32 := Cursor(rows).value + 1;
      assert skipped !in indexed + Heights(bs) && skipped <= bs[|bs| - 1].number;
    }
  }

  /** For any stream of batches that pass the parent check, wherever they start:
      every height from the start to the cursor has been indexed at every moment
      exactly when each batch starts at or below the height after the cursor of
      its moment. The parent check does not see to it, and neither does a table
      that is linked and has no gaps. */
  lemma {:induction false} NothingIsEverSkippedIff(
      rows: Rows, indexed: set<u32>, start: u32, tip: seq<Delivery>, retention: u32)
    requires NothingSkipped(rows, indexed, start) && start <= Cursor(rows).value + 1
    requires (forall h :: h in indexed ==> h <= Cursor(rows).value) && AllPass(rows, tip, retention)
    ensures NeverSkipped(rows, indexed, start, tip, retention) <==> AllInReach(rows, tip, retention)
  {
    if |tip| == 0 {
      assert tip[..0] == tip;
    } else {
      hide InReach, NothingSkipped, FromChain, Diverged;
      var front, d := tip[..|tip| - 1], tip[|tip| - 1];
      AllPassFront(rows, tip, retention);
      NothingIsEverSkippedIff(rows, indexed, start, front, retention);
      PrefixesOf(rows, indexed, start, tip, retention);
      IndexedUpToCursor(rows, indexed, front, retention);
      CursorNeverDrops(rows, front, retention);
      if NeverSkipped(rows, indexed, start, front, retention) {
        var before, done := RowsAfter(rows, front, retention), IndexedAfter(indexed, front);
        assert front[..|front|] == front;
        if Brings(d) {
          SkipsNothingIff(before, done, start, d, retention);
        } else {
          NothingInReach(before, d);
        }
      }
    }
  }

  ghost predicate NeverSkipped(rows: Rows, indexed: set<u32>, start: u32, tip: seq<Delivery>, retention: u32) {
    forall k :: 0 <= k <= |tip| ==>
      NothingSkipped(RowsAfter(rows, tip[..k], retention), IndexedAfter(indexed, tip[..k]), start)
  }

  ghost predicate AllInReach(rows: Rows, tip: seq<Delivery>, retention: u32) {
    forall k :: 0 <= k < |tip| ==> InReach(RowsAfter(rows, tip[..k], retention), tip[k])
  }

  lemma NothingInReach(rows: Rows, d: Delivery)
    requires !Brings(d)
    ensures InReach(rows, d)
  {
  }

  lemma PrefixesOf(rows: Rows, indexed: set<u32>, start: u32, tip: seq<Delivery>, retention: u32)
    requires 0 < |tip|
    ensures var front := tip[..|tip| - 1];
            && (NeverSkipped(rows, indexed, start, tip, retention)
                <==> NeverSkipped(rows, indexed, start, front, retention)
                     && NothingSkipped(RowsAfter(rows, tip, retention), IndexedAfter(indexed, tip), start))
            && (AllInReach(rows, tip, retention)
                <==> AllInReach(rows, front, retention) && InReach(RowsAfter(rows, front, retention), tip[|tip| - 1]))
  {
    hide InReach, NothingSkipped, RowsAfter, IndexedAfter;
    var front := tip[..|tip| - 1];
    assert tip[..|tip|] == tip;
    assert forall k :: 0 <= k <= |front| ==> front[..k] == tip[..k];
  }

  lemma {:induction false} CursorNeverDrops(rows: Rows, tip: seq<Delivery>, retention: u32)
    requires Cursor(rows).Some? && AllPass(rows, tip, retention)
    ensures var c := Cursor(RowsAfter(rows, tip, retention)); c.Some? && Cursor(rows).value <= c.value
  {
    if |tip| > 0 {
      var front, d := tip[..|tip| - 1], tip[|tip| - 1];
      AllPassFront(rows, tip, retention);
      CursorNeverDrops(rows, front, retention);
      if Brings(d) {
        hide FromChain, Heights, SetAll;
        RunFacts(d);
        CursorAfter(RowsAfter(rows, front, retention), d.batch.value, d.batch.value[0].number, retention);
      }
    }
  }

  // ---- A stream that keeps up ----

  /** A chain the engine can go on with from where it stands. */
  ghost predicate Meets(rows: Rows, next: nat, chain: seq<Block>, max: u32) {
    IsChain(chain) && |chain| <= MAX_U32 && NoCollisions(rows, chain) && !TrappedAt(rows, next, chain, max)
  }

  /** The tip stream keeps up with the engine, which never tells it where it
      stands: every delivery that is not empty or an error starts at the height
      the engine needs next, the one just above the fork after a rollback. The
      chain may change between any two deliveries. */
  ghost predicate KeepsUp(rows: Rows, next: nat, chain: seq<Block>, s: Setup, tip: seq<Delivery>)
    decreases |tip|, 0
  {
    |tip| == 0
    || (&& (tip[0].chain != chain ==> Meets(rows, next, tip[0].chain, s.maxDepth))
        && (|| tip[0].batch.Err?
            || (tip[0].batch.value == [] && KeepsUp(rows, next, tip[0].chain, s, tip[1..]))
            || KeepsUpAfter(rows, next, tip[0].chain, tip[0].batch.value, s, tip[1..])))
  }

  ghost predicate KeepsUpAfter(rows: Rows, next: nat, chain: seq<Block>, bs: seq<Block>, s: Setup, tip: seq<Delivery>)
    decreases |tip|, 1
  {
    && 0 < |bs| && next + |bs| <= |chain| && bs == chain[next..next + |bs|]
    && if TipDiverged(rows, next, chain)
       then var fork := ForkOf(rows, chain, next - 1);
            KeepsUp(RollbackTo(rows, fork), fork + 1, chain, s, tip)
       else KeepsUp(SetAll(rows, bs, s.retention), next + |bs|, chain, s, tip)
  }

  /** The number of deliveries that bring blocks. */
  function Batches(tip: seq<Delivery>): nat {
    if |tip| == 0 then 0
    else Batches(tip[..|tip| - 1]) + if Brings(tip[|tip| - 1]) then 1 else 0
  }

  /** The chain after these deliveries, and how often it changed. */
  function ChainAfter(chain: seq<Block>, tip: seq<Delivery>): seq<Block> {
    if |tip| == 0 then chain else tip[|tip| - 1].chain
  }

  function Changes(chain: seq<Block>, tip: seq<Delivery>): nat {
    if |tip| == 0 then 0
    else
      var front := tip[..|tip| - 1];
      Changes(chain, front) + if tip[|tip| - 1].chain != ChainAfter(chain, front) then 1 else 0
  }

  lemma LoopMeets(l: Ledger, s: Setup, chain: seq<Block>)
    requires ShapeInv(l) && Meets(l.rows, l.next, chain, s.maxDepth)
    ensures IsChain(chain) && |chain| <= MAX_U32 && LoopInv(s, chain, l, false, l)
  {
  }

  /** One delivery, seen from the ledger. */
  lemma KeepsUpStep(l: Ledger, s: Setup, chain: seq<Block>, tip: seq<Delivery>, i: nat)
    requires i < |tip| && KeepsUp(l.rows, l.next, chain, s, tip[i..])
    ensures tip[i].chain != chain ==> Meets(l.rows, l.next, tip[i].chain, s.maxDepth)
    ensures tip[i].batch == Ok([]) ==> KeepsUp(l.rows, l.next, tip[i].chain, s, tip[i + 1..])
    ensures tip[i].batch.Ok? && tip[i].batch.value != [] ==>
              && NextWindow(l, tip[i].chain, tip[i].batch.value)
              && forall l' :: Round(s, tip[i].chain, l, tip[i].batch.value, l') ==>
                   KeepsUp(l'.rows, l'.next, tip[i].chain, s, tip[i + 1..])
  {
    hide Meets;
    assert tip[i..][0] == tip[i] && tip[i..][1..] == tip[i + 1..];
  }

  /** Against one chain there is at most one rollback. */
  lemma OneRollback(s: Setup, chain: seq<Block>, first: Ledger, settled: bool, l: Ledger)
    requires LoopInv(s, chain, first, settled, l)
    ensures first.rollbacks <= l.rollbacks <= first.rollbacks + 1
  {
    hide OnChain;
  }

  // ---- The loop that follows ----

  lemma WindowIsRun(l: Ledger, chain: seq<Block>, blocks: seq<Block>)
    requires IsChain(chain) && |chain| <= MAX_U32 && NextWindow(l, chain, blocks)
    ensures IsRunOf(blocks, chain)
  {
  }

  lemma NoDeliveryYet(rows: Rows, chain: seq<Block>, tip: seq<Delivery>, retention: u32)
    ensures RowsAfter(rows, tip[..0], retention) == rows && ChainAfter(chain, tip[..0]) == chain
  {
  }

  lemma OneMoreDelivery(rows: Rows, tip: seq<Delivery>, i: nat, retention: u32)
    requires i < |tip|
    ensures RowsAfter(rows, tip[..i + 1], retention)
        == RowsAfter(RowsAfter(rows, tip[..i], retention), [tip[i]], retention)
  {
    assert tip[..i + 1][..i] == tip[..i] && [tip[i]][..0] == [];
    assert RowsAfter(RowsAfter(rows, tip[..i], retention), [], retention) == RowsAfter(rows, tip[..i], retention);
  }

  /** Where a loop that keeps in step stands after some deliveries: on a path of
      engine steps from `l0`, its last chain met at `path[at]`. */
  ghost predicate Followed(
      s: Setup, l0: Ledger, chain0: seq<Block>, done: seq<Delivery>, path: seq<Ledger>, at: nat, settled: bool)
  {
    var chain := ChainAfter(chain0, done);
    && IsChain(chain) && |chain| <= MAX_U32
    && at < |path| && IsPath(path, s) && path[0] == l0
    && LoopInv(s, chain, path[at], settled, Last(path))
    && path[at].rollbacks <= l0.rollbacks + Changes(chain0, done)
  }

  /** And that the rest of the stream keeps up with it. */
  ghost predicate Following(
      s: Setup, l0: Ledger, chain0: seq<Block>, tip: seq<Delivery>, count: nat, path: seq<Ledger>, at: nat,
      settled: bool)
  {
    && count <= |tip| && Followed(s, l0, chain0, tip[..count], path, at, settled)
    && |path| == 1 + Batches(tip[..count])
    && KeepsUp(Last(path).rows, Last(path).next, ChainAfter(chain0, tip[..count]), s, tip[count..])
  }

  lemma FollowingStarts(s: Setup, l0: Ledger, chain0: seq<Block>, tip: seq<Delivery>)
    requires ShapeInv(l0) && Meets(l0.rows, l0.next, chain0, s.maxDepth) && KeepsUp(l0.rows, l0.next, chain0, s, tip)
    ensures Following(s, l0, chain0, tip, 0, [l0], 0, false)
  {
    hide KeepsUp;
    LoopMeets(l0, s, chain0);
    PathStarts(l0, s);
    assert tip[..0] == [] && tip[0..] == tip;
  }

  /** What the next delivery finds. */
  lemma FollowingFacts(
      s: Setup, l0: Ledger, chain0: seq<Block>, tip: seq<Delivery>, count: nat, path: seq<Ledger>, at: nat,
      settled: bool)
    requires Following(s, l0, chain0, tip, count, path, at, settled)
    ensures Followed(s, l0, chain0, tip[..count], path, at, settled) && at < |path| && IsPath(path, s)
    ensures LoopInv(s, ChainAfter(chain0, tip[..count]), path[at], settled, Last(path))
    ensures count < |tip| ==>
              var l, d := Last(path), tip[count];
              && (d.chain != ChainAfter(chain0, tip[..count]) ==> Meets(l.rows, l.next, d.chain, s.maxDepth))
              && (Brings(d) ==> NextWindow(l, d.chain, d.batch.value))
  {
    hide KeepsUp, Meets, NextWindow, LoopInv, IsPath;
    if count < |tip| {
      KeepsUpStep(Last(path), s, ChainAfter(chain0, tip[..count]), tip, count);
    }
  }

  /** What processing it leaves. */
  lemma FollowingContinues(
      s: Setup, l0: Ledger, chain0: seq<Block>, tip: seq<Delivery>, count: nat, path: seq<Ledger>, at: nat,
      settled: bool,
      ok: bool, path': seq<Ledger>, at': nat, settled': bool)
    requires Following(s, l0, chain0, tip, count, path, at, settled) && count < |tip| && FromChain(tip[count])
    requires path <= path' && at' < |path'| && IsPath(path', s)
    requires LoopInv(s, tip[count].chain, path'[at'], settled', Last(path'))
    requires var changed := tip[count].chain != ChainAfter(chain0, tip[..count]);
             path'[at'].rollbacks <= path[at].rollbacks + if changed then 1 else 0
    requires ok ==> tip[count].batch.Ok?
    requires ok && Brings(tip[count]) ==>
               |path'| == |path| + 1 && Round(s, tip[count].chain, Last(path), tip[count].batch.value, Last(path'))
    requires ok && !Brings(tip[count]) ==> path' == path
    ensures Followed(s, l0, chain0, tip[..count + 1], path', at', settled')
    ensures ok ==> Following(s, l0, chain0, tip, count + 1, path', at', settled')
  {
    hide KeepsUp, LoopInv, IsPath, Round, IsRunOf;
    assert tip[..count + 1][..count] == tip[..count];
    KeepsUpStep(Last(path), s, ChainAfter(chain0, tip[..count]), tip, count);
  }

  lemma BatchesStep(tip: seq<Delivery>, i: nat)
    requires i < |tip|
    ensures Batches(tip[..i + 1]) == Batches(tip[..i]) + if Brings(tip[i]) then 1 else 0
  {
    assert tip[..i + 1][..i] == tip[..i];
  }

  /** What a caller is told, wherever the loop is left. */
  lemma FollowedFacts(
      s: Setup, l0: Ledger, chain0: seq<Block>, done: seq<Delivery>, path: seq<Ledger>, at: nat, settled: bool)
    requires Followed(s, l0, chain0, done, path, at, settled)
    ensures IsPath(path, s) && path[0] == l0 && ShapeInv(Last(path))
    ensures Last(path) == path[at]
        || Progress(s, Rewound(path[at], ChainAfter(chain0, done)), Last(path), ChainAfter(chain0, done))
    ensures Last(path).rollbacks <= l0.rollbacks + 1 + Changes(chain0, done)
  {
    hide LoopInv, IsPath, Progress, ShapeInv;
    LoopFacts(s, ChainAfter(chain0, done), path[at], settled, Last(path));
    OneRollback(s, ChainAfter(chain0, done), path[at], settled, Last(path));
  }

  /** Where a backfill ends, its chain can be gone on with. */
  lemma CaughtUpMeets(s: Setup, chain: seq<Block>, first: Ledger, l: Ledger)
    requires IsChain(chain) && |chain| <= MAX_U32 && NoCollisions(first.rows, chain)
        && !Trapped(first, chain, s.maxDepth)
    requires l == first || Progress(s, Rewound(first, chain), l, chain)
    ensures Meets(l.rows, l.next, chain, s.maxDepth) && first.rollbacks <= l.rollbacks <= first.rollbacks + 1
  {
  }
}
