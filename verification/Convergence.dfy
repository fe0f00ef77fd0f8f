/** Backfill against one canonical chain, as a value: which state it heads for,
    why one rollback is enough, and when it would never finish. */
module Convergence {
  import opened Prelude
  import opened Chain
  import opened Sql
  import opened Handlers
  import opened BlockTable
  import opened ForkPoint
  import opened Ledgers

  ghost predicate AllAgree(rows: Rows, chain: seq<Block>) {
    forall h: u32 :: h in rows ==> Agrees(rows, chain, h)
  }

  /** Every stored row is the canonical one. */
  ghost predicate OnChain(rows: Rows, chain: seq<Block>) {
    AllAgree(rows, chain) && NoCollisions(rows, chain)
  }

  /** The state after the reorg check: rolled back to the fork if the tip diverged. */
  ghost function Rewound(l: Ledger, chain: seq<Block>): Ledger
  {
    if TipDiverged(l.rows, l.next, chain) then Rewind(l, ForkOf(l.rows, chain, l.next - 1)) else l
  }

  /** The walk from the tip is refused by the depth bound. */
  ghost predicate Refused(l: Ledger, chain: seq<Block>, max: u32)
  {
    TipDiverged(l.rows, l.next, chain) && TooDeep(l.rows, chain, l.next - 1, max, l.next - 1)
  }

  /** A foreign genesis row within reach of the walk: the fork is reported at
      height 0 and the row stays, so the same step comes round again. */
  ghost predicate Trapped(l: Ledger, chain: seq<Block>, max: u32) {
    TrappedAt(l.rows, l.next, chain, max)
  }

  ghost predicate TrappedAt(rows: Rows, next: nat, chain: seq<Block>, max: u32) {
    next < |chain| && ForeignGenesis(rows, chain) && (max == 0 || next - 1 <= max)
  }

  lemma TrappedRepeats(l: Ledger, s: Setup, chain: seq<Block>)
    requires ShapeInv(l) && IsChain(chain) && NoCollisions(l.rows, chain) && Trapped(l, chain, s.maxDepth)
    ensures TipDiverged(l.rows, l.next, chain) && !Refused(l, chain, s.maxDepth)
    ensures var l' := Rewound(l, chain);
            && l' == Rewind(l, 0)
            && ShapeInv(l') && NoCollisions(l'.rows, chain) && Trapped(l', chain, s.maxDepth)
  {
    ForeignGenesisForksAtZero(l, chain);
    RollbackKeepsSpan(l.rows, l.lo, l.next, 0);
  }

  /** The ledger after `n` reorg checks with nothing committed in between. */
  ghost function Again(l: Ledger, chain: seq<Block>, n: nat): Ledger {
    if n == 0 then l else Rewound(Again(l, chain, n - 1), chain)
  }

  /** In the trap the loop never ends: every round is one more rollback to
      genesis, and nothing is ever committed. */
  lemma {:induction false} TrappedForever(l: Ledger, s: Setup, chain: seq<Block>, n: nat)
    requires ShapeInv(l) && IsChain(chain) && NoCollisions(l.rows, chain) && Trapped(l, chain, s.maxDepth)
    ensures var m := Again(l, chain, n);
            && m.rollbacks == l.rollbacks + n && m.applied == l.applied
            && (0 < n ==> m.next == 1)
            && ShapeInv(m) && NoCollisions(m.rows, chain) && Trapped(m, chain, s.maxDepth)
  {
    if n > 0 {
      hide Trapped, Linked, NoCollisions, TipDiverged, Refused;
      TrappedForever(l, s, chain, n - 1);
      var m := Again(l, chain, n - 1);
      TrappedRepeats(m, s, chain);
    }
  }

  lemma ForeignGenesisForksAtZero(l: Ledger, chain: seq<Block>)
    requires ShapeInv(l) && IsChain(chain) && NoCollisions(l.rows, chain)
    requires ForeignGenesis(l.rows, chain) && l.next < |chain|
    ensures TipDiverged(l.rows, l.next, chain) && ForkOf(l.rows, chain, l.next - 1) == 0
  {
    hide Linked, NoCollisions;
    var c: u32 := l.next - 1;
    assert c in l.rows;
    var f := ForkOf(l.rows, chain, c);
    assert f in l.rows && StopsAt(l.rows, chain, f);
    DisagreementRises(l.rows, chain, l.lo, l.next, 0, c);
    DisagreementRises(l.rows, chain, l.lo, l.next, 0, f);
    assert chain[l.next].parent == chain[c].hash;
  }

  /** Outside the trap, the state after the reorg check is wholly on the canonical
      chain, so the next window commits: one rollback is enough. */
  lemma RewoundAgrees(l: Ledger, s: Setup, chain: seq<Block>)
    requires ShapeInv(l) && IsChain(chain) && NoCollisions(l.rows, chain) && l.next < |chain|
    requires !Trapped(l, chain, s.maxDepth) && !Refused(l, chain, s.maxDepth)
    ensures var m := Rewound(l, chain);
            && OnChain(m.rows, chain) && !TipDiverged(m.rows, m.next, chain)
            && m.next <= l.next
            && (TipDiverged(l.rows, l.next, chain) ==> m.rows == Canonical(l.rows, chain))
  {
    if TipDiverged(l.rows, l.next, chain) {
      if ForeignGenesis(l.rows, chain) {
        ForeignGenesisForksAtZero(l, chain);
        assert false;
      }
      RewoundIsCanonical(l, chain);
    } else {
      TipAgreementSinks(l, chain);
    }
  }

  lemma RewoundIsCanonical(l: Ledger, chain: seq<Block>)
    requires ShapeInv(l) && IsChain(chain) && NoCollisions(l.rows, chain)
    requires TipDiverged(l.rows, l.next, chain) && !ForeignGenesis(l.rows, chain)
    ensures var m := Rewound(l, chain);
            && OnChain(m.rows, chain) && !TipDiverged(m.rows, m.next, chain)
            && m.next <= l.next && m.rows == Canonical(l.rows, chain)
  {
    hide Linked, ForeignGenesis;
    var c: u32, m := l.next - 1, Rewound(l, chain);
    assert chain[l.next].parent == chain[c].hash;
    ForkStaysNear(l.rows, chain, l.lo, l.next, c);
    RollbackIsExactIff(l.rows, chain, l.lo, l.next, c);
    SettledTip(m, chain);
  }

  /** When the tip is extended by the chain, every stored row is on the chain. */
  lemma TipAgreementSinks(l: Ledger, chain: seq<Block>)
    requires ShapeInv(l) && IsChain(chain) && NoCollisions(l.rows, chain)
    requires l.next < |chain| && !TipDiverged(l.rows, l.next, chain)
    ensures AllAgree(l.rows, chain)
  {
    forall h: u32 | h in l.rows ensures Agrees(l.rows, chain, h) {
      var c: u32 := l.next - 1;
      assert c in l.rows;
      assert chain[l.next].parent == chain[c].hash;
      assert Agrees(l.rows, chain, c);
      if !Agrees(l.rows, chain, h) {
        DisagreementRises(l.rows, chain, l.lo, l.next, h, c);
      }
    }
  }

  /** Committing the next blocks of the chain keeps the table on the chain. */
  lemma CommitAgrees(rows: Rows, chain: seq<Block>, next: nat, n: nat, retention: u32)
    requires IsChain(chain) && OnChain(rows, chain)
    requires 0 < n && next + n <= |chain| <= MAX_U32
    ensures OnChain(SetAll(rows, chain[next..next + n], retention), chain)
  {
    var bs := chain[next..next + n];
    SliceIsBatch(chain, 0, next, next + n);
    var after := SetAll(rows, bs, retention);
    forall h: u32 | h in after ensures Agrees(after, chain, h) && after[h] == RowOf(chain[h]) {
      SetAllAt(rows, bs, next, retention, h);
      if !(next <= h < next + n) {
        assert Agrees(rows, chain, h);
      }
    }
  }

  lemma NextCanCommit(l: Ledger, chain: seq<Block>, n: nat)
    requires IsChain(chain) && AllAgree(l.rows, chain) && 0 < n && l.next + n <= |chain| <= MAX_U32
    ensures CanCommit(l, chain[l.next..l.next + n])
  {
  }

  /** Since `base`, exactly the chain's blocks from `base.next` up to `l.next` were
      applied, each once and in order, and pruning followed the cursor. */
  ghost predicate Tiles(s: Setup, base: Ledger, l: Ledger, chain: seq<Block>) {
    && base.next <= l.next <= |chain| <= MAX_U32
    && l.rollbacks == base.rollbacks
    && l.applied == base.applied + chain[base.next..l.next]
    && l.lo == (if base.next == l.next then base.lo else Max(base.lo, PruneFloor(l.next - 1, s.retention)))
  }

  /** `l` is the state a backfill that passed the reorg check at `base` has reached
      since: on the chain, its windows tiling the chain without gap or overlap, and
      the same as if the blocks had been indexed one at a time. */
  ghost predicate Progress(s: Setup, base: Ledger, l: Ledger, chain: seq<Block>) {
    && OnChain(l.rows, chain)
    && Tiles(s, base, l, chain)
    && (Independent(s.handlers) ==> CommitEach(base, s, chain[base.next..l.next]) == Ok(l))
  }

  lemma ProgressStarts(s: Setup, base: Ledger, chain: seq<Block>)
    requires OnChain(base.rows, chain) && base.next <= |chain| <= MAX_U32
    ensures Progress(s, base, base, chain)
  {
  }

  lemma ProgressContinues(s: Setup, base: Ledger, l: Ledger, l': Ledger, chain: seq<Block>, bs: seq<Block>)
    requires IsChain(chain) && Progress(s, base, l, chain)
    requires 0 < |bs| && l.next + |bs| <= |chain| && bs == chain[l.next..l.next + |bs|]
    requires Commit(l, s, bs) == Ok(l')
    ensures CanCommit(l, bs) && Progress(s, base, l', chain)
  {
    hide IsBatch, OnChain, Independent, Diverged;
    CommitStaysOnChain(l, s, l', chain, bs);
    TilesContinue(s, base, l, chain, bs, l'.tables);
    assert l' == Advance(l, s, bs, l'.tables);
    if Independent(s.handlers) {
      EachContinues(s, base, l, chain[base.next..l.next], bs);
      assert CommitEach(base, s, chain[base.next..l'.next]) == Ok(l');
    }
  }

  lemma CommitStaysOnChain(l: Ledger, s: Setup, l': Ledger, chain: seq<Block>, bs: seq<Block>)
    requires IsChain(chain) && OnChain(l.rows, chain) && |chain| <= MAX_U32
    requires 0 < |bs| && l.next + |bs| <= |chain| && bs == chain[l.next..l.next + |bs|]
    requires Commit(l, s, bs) == Ok(l')
    ensures CanCommit(l, bs) && bs[|bs| - 1].number == l.next + |bs| - 1
    ensures OnChain(l'.rows, chain)
  {
    hide Linked, Spans, AllAgree, NoCollisions;
    NextCanCommit(l, chain, |bs|);
    CommitAgrees(l.rows, chain, l.next, |bs|, s.retention);
  }

  lemma TilesContinue(s: Setup, base: Ledger, l: Ledger, chain: seq<Block>, bs: seq<Block>, t: Tables)
    requires Tiles(s, base, l, chain)
    requires 0 < |bs| && l.next + |bs| <= |chain| && bs == chain[l.next..l.next + |bs|]
    requires bs[|bs| - 1].number == l.next + |bs| - 1
    ensures Tiles(s, base, Advance(l, s, bs, t), chain)
    ensures chain[base.next..l.next] + bs == chain[base.next..l.next + |bs|]
  {
  }

  lemma EachContinues(s: Setup, base: Ledger, l: Ledger, front: seq<Block>, bs: seq<Block>)
    requires Independent(s.handlers) && CommitEach(base, s, front) == Ok(l)
    requires 0 < |bs| && IsBatch(bs, l.next) && Commit(l, s, bs).Ok?
    ensures CommitEach(base, s, front + bs) == Commit(l, s, bs)
  {
    CommitIsCommitEach(l, s, bs);
    CommitEachAppend(base, l, s, front, bs);
  }

  /** A table on the chain is the chain's window of its heights. */
  lemma AgreementIsWindow(rows: Rows, chain: seq<Block>, lo: nat, next: nat)
    requires Spans(rows, lo, next) && OnChain(rows, chain) && next <= |chain| <= MAX_U32
    ensures rows == Window(chain, lo, next)
  {
  }

  lemma ScratchRows(start: u32, retention: u32, chain: seq<Block>)
    requires IsChain(chain) && start < |chain| <= MAX_U32
    ensures SetAll(map[], chain[start..|chain|], retention)
         == Window(chain, Max(start, PruneFloor(|chain| - 1, retention)), |chain|)
  {
    var bs := chain[start..|chain|];
    SliceIsBatch(chain, 0, start, |chain|);
    CommitKeepsSpan(map[], start, start, bs, retention);
    assert OnChain(map[], chain);
    CommitAgrees(map[], chain, start, |bs|, retention);
    AgreementIsWindow(SetAll(map[], bs, retention), chain, Max(start, PruneFloor(|chain| - 1, retention)), |chain|);
  }

  /** The table left by indexing the chain from a fresh database, block by block. */
  lemma ScratchTable(s: Setup, chain: seq<Block>)
    requires IsChain(chain) && s.start < |chain| <= MAX_U32
    requires CommitEach(Fresh(s), s, chain[s.start..]).Ok?
    ensures CommitEach(Fresh(s), s, chain[s.start..]).value.rows
         == Window(chain, Max(s.start, PruneFloor(|chain| - 1, s.retention)), |chain|)
  {
    assert chain[s.start..] == chain[s.start..|chain|];
    SliceIsBatch(chain, 0, s.start, |chain|);
    ScratchRows(s.start, s.retention, chain);
    CommitEachAt(Fresh(s), s, chain[s.start..]);
  }

  /** A converged table is the one that indexing the chain from a fresh database
      leaves exactly when the table it started from had the start height as its
      lowest row, or the retention floor of the head is above both. */
  lemma ScratchIff(s: Setup, chain: seq<Block>, lo: nat)
    requires IsChain(chain) && s.start < |chain| <= MAX_U32 && lo < |chain|
    requires CommitEach(Fresh(s), s, chain[s.start..]).Ok?
    ensures var floor := PruneFloor(|chain| - 1, s.retention);
            Window(chain, Max(lo, floor), |chain|) == CommitEach(Fresh(s), s, chain[s.start..]).value.rows
            <==> lo == s.start || Max(lo, s.start) <= floor
  {
    hide CommitEach;
    ScratchTable(s, chain);
    var floor := PruneFloor(|chain| - 1, s.retention);
    var m: u32, n: u32 := Max(s.start, floor), Max(lo, floor);
    assert m in Window(chain, m, |chain|) && n in Window(chain, n, |chain|);
  }

  /** Under unchanged settings that is always so when nothing above the head was
      ever committed. */
  lemma NothingAboveHead(l: Ledger, s: Setup, chain: seq<Block>)
    requires TableInv(l, s) && l.peak <= |chain| <= MAX_U32 && 0 < |chain|
    ensures l.lo == s.start || Max(l.lo, s.start) <= PruneFloor(|chain| - 1, s.retention)
  {
  }

  // ---- The backfill loop ----

  /** The blocks are the next window of the chain. */
  ghost predicate NextWindow(l: Ledger, chain: seq<Block>, blocks: seq<Block>) {
    0 < |blocks| && l.next + |blocks| <= |chain| && blocks == chain[l.next..l.next + |blocks|]
  }

  lemma WindowFacts(l: Ledger, chain: seq<Block>, blocks: seq<Block>)
    requires IsChain(chain) && |chain| <= MAX_U32 && NextWindow(l, chain, blocks)
    ensures blocks[0] == chain[l.next] && blocks[0].number == l.next
    ensures blocks[|blocks| - 1].number == l.next + |blocks| - 1 < MAX_U32
    ensures TipDiverged(l.rows, l.next, chain) <==> Diverged(l.rows, blocks[0])
  {
  }

  /** One round of the loop that took effect: the one rollback, or a committed window. */
  ghost predicate Round(s: Setup, chain: seq<Block>, l: Ledger, blocks: seq<Block>, l': Ledger) {
    && NextWindow(l, chain, blocks)
    && if TipDiverged(l.rows, l.next, chain) then !Refused(l, chain, s.maxDepth) && l' == Rewound(l, chain)
       else Commit(l, s, blocks) == Ok(l')
  }

  /** Until its first round takes effect a backfill stands at `first`; from then on
      it makes progress from the state the reorg check left. */
  ghost predicate LoopInv(s: Setup, chain: seq<Block>, first: Ledger, settled: bool, l: Ledger) {
    && ShapeInv(l) && !Trapped(first, chain, s.maxDepth)
    && if settled
       then first.next < |chain| && !Refused(first, chain, s.maxDepth) && Progress(s, Rewound(first, chain), l, chain)
       else l == first && NoCollisions(first.rows, chain)
  }

  lemma LoopStarts(l: Ledger, s: Setup, chain: seq<Block>)
    requires ShapeInv(l) && NoCollisions(l.rows, chain) && !Trapped(Reopen(l, s), chain, s.maxDepth)
    ensures LoopInv(s, chain, Reopen(l, s), false, Reopen(l, s))
    ensures Reopen(l, s).rows == l.rows && Reopen(l, s).tables == l.tables
    ensures Resume(l.rows, s.start) == Reopen(l, s).next
  {
    ReopenKeepsShape(l, s);
  }

  /** What the loop invariant says to a caller, wherever the loop is left. */
  lemma LoopFacts(s: Setup, chain: seq<Block>, first: Ledger, settled: bool, l: Ledger)
    requires IsChain(chain) && |chain| <= MAX_U32 && LoopInv(s, chain, first, settled, l)
    ensures ShapeInv(l) && if settled then Progress(s, Rewound(first, chain), l, chain) else l == first
    ensures settled ==> l.next <= |chain| && !Refused(first, chain, s.maxDepth) && !Refused(l, chain, s.maxDepth)
    ensures settled && l.next == |chain| ==>
              l.rows == Window(chain, Max(Rewound(first, chain).lo, PruneFloor(|chain| - 1, s.retention)), |chain|)
  {
    if settled {
      SettledTip(l, chain);
      if l.next == |chain| {
        AgreementIsWindow(l.rows, chain, l.lo, l.next);
        RewoundIsBelow(first, chain);
      }
    }
  }

  lemma RewoundIsBelow(l: Ledger, chain: seq<Block>)
    requires l.next < |chain|
    ensures Rewound(l, chain).next < |chain|
  {
  }

  lemma RoundIsEngineStep(s: Setup, chain: seq<Block>, l: Ledger, blocks: seq<Block>, l': Ledger)
    requires ShapeInv(l) && IsChain(chain) && |chain| <= MAX_U32 && Round(s, chain, l, blocks, l')
    ensures EngineStep(l, l', s) && ShapeInv(l')
  {
    hide Linked, Spans;
    if TipDiverged(l.rows, l.next, chain) {
      ForkStaysNear(l.rows, chain, l.lo, l.next, l.next - 1);
      assert CanRewind(l, ForkOf(l.rows, chain, l.next - 1));
    } else {
      SliceIsBatch(chain, 0, l.next, l.next + |blocks|);
      assert CanCommit(l, blocks);
    }
    StepKeepsShape(l, l', s);
  }

  /** A round settles the loop, and once settled no round is a rollback: the
      measure (not yet settled, blocks left) goes down. */
  lemma RoundKeepsLoopInv(s: Setup, chain: seq<Block>, first: Ledger, settled: bool, l: Ledger, blocks: seq<Block>,
      l': Ledger)
    requires IsChain(chain) && |chain| <= MAX_U32 && LoopInv(s, chain, first, settled, l)
        && Round(s, chain, l, blocks, l')
    ensures LoopInv(s, chain, first, true, l')
    ensures settled ==> !TipDiverged(l.rows, l.next, chain) && l.next < l'.next
  {
    hide IsBatch, OnChain, Spans, Linked, NoCollisions, TipDiverged, Trapped;
    RoundIsEngineStep(s, chain, l, blocks, l');
    var base := Rewound(first, chain);
    if settled {
      SettledTip(l, chain);
      ProgressContinues(s, base, l, l', chain, blocks);
    } else {
      RewoundAgrees(first, s, chain);
      ProgressStarts(s, base, chain);
      if !TipDiverged(l.rows, l.next, chain) {
        ProgressContinues(s, base, l, l', chain, blocks);
      }
    }
  }

  lemma SettledTip(l: Ledger, chain: seq<Block>)
    requires IsChain(chain) && OnChain(l.rows, chain)
    ensures !TipDiverged(l.rows, l.next, chain)
  {
  }

  // ---- Paths of durable states ----

  ghost predicate IsPath(path: seq<Ledger>, s: Setup) {
    0 < |path| && forall i, j :: 0 <= i < |path| && 0 <= j < |path| && j == i + 1 ==> EngineStep(path[i], path[j], s)
  }

  function Last(path: seq<Ledger>): Ledger
    requires 0 < |path|
  {
    path[|path| - 1]
  }

  /** Under unchanged settings every state of a path keeps the full invariant. */
  lemma {:induction false} PathKeepsInv(path: seq<Ledger>, s: Setup, i: nat)
    requires IsPath(path, s) && Inv(path[0], s) && i < |path|
    ensures Inv(path[i], s)
  {
    if i > 0 {
      PathKeepsInv(path, s, i - 1);
      StepKeepsInv(path[i - 1], path[i], s);
    }
  }

  lemma PathStarts(l: Ledger, s: Setup)
    ensures IsPath([l], s)
  {
  }

  lemma PathGrows(path: seq<Ledger>, l: Ledger, s: Setup)
    requires IsPath(path, s) && EngineStep(Last(path), l, s)
    ensures IsPath(path + [l], s)
  {
  }
}
