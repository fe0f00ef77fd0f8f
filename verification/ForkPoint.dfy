/** The common ancestor of a stored table and a source's canonical chain. */
module ForkPoint {
  import opened Prelude
  import opened Chain
  import opened BlockTable

  /** The stored hash at `h` is the canonical one. */
  ghost predicate Agrees(rows: Rows, chain: seq<Block>, h: int) {
    0 <= h < |chain| && h <= MAX_U32 && h in rows && rows[h].hash == chain[h].hash
  }

  /** No two different blocks share a hash: a row with the canonical hash of its
      height is the canonical row. */
  ghost predicate NoCollisions(rows: Rows, chain: seq<Block>) {
    forall h: u32 :: Agrees(rows, chain, h) ==> rows[h] == RowOf(chain[h])
  }

  /** The block a session at `next` fetches first does not extend the stored tip. */
  ghost predicate TipDiverged(rows: Rows, next: nat, chain: seq<Block>) {
    0 < next < |chain| && next <= MAX_U32 && Diverged(rows, chain[next])
  }

  /** The heights the downward walk stops at: nothing stored, agreement, or genesis. */
  ghost predicate StopsAt(rows: Rows, chain: seq<Block>, h: u32) {
    h !in rows || Agrees(rows, chain, h) || h == 0
  }

  /** `f` is the greatest height at or below `from` that the walk stops at. */
  ghost predicate IsFork(rows: Rows, chain: seq<Block>, from: u32, f: u32) {
    f <= from && StopsAt(rows, chain, f) && forall h: u32 :: f < h <= from ==> !StopsAt(rows, chain, h)
  }

  ghost function ForkOf(rows: Rows, chain: seq<Block>, from: u32): (f: u32)
    ensures IsFork(rows, chain, from, f)
  {
    if StopsAt(rows, chain, from) then from else ForkOf(rows, chain, from - 1)
  }

  /** The fork lies more than `max` blocks below the cursor (`max == 0` means unbounded). */
  ghost predicate TooDeep(rows: Rows, chain: seq<Block>, cursor: u32, max: u32, from: u32) {
    max != 0 && SatSub(cursor, ForkOf(rows, chain, from)) > max
  }

  /** The walk is refused exactly when every height from `cursor - max` up to the
      diverged one is above genesis, stored, and disagrees with the canonical chain
      (and when it already starts below that bound). */
  lemma TooDeepIff(rows: Rows, chain: seq<Block>, cursor: u32, max: u32, from: u32)
    requires max != 0
    ensures TooDeep(rows, chain, cursor, max, from)
       <==> cursor > max && forall h: u32 :: cursor - max <= h <= from
                              ==> 0 < h && h in rows && !Agrees(rows, chain, h)
  {
    var f := ForkOf(rows, chain, from);
    if f < cursor - max {
      forall h: u32 | cursor - max <= h <= from ensures 0 < h && h in rows && !Agrees(rows, chain, h) {
        assert !StopsAt(rows, chain, h);
      }
    } else {
      assert StopsAt(rows, chain, f);
    }
  }

  /** Agreement is closed downwards on a hash-linked table: above a row that
      disagrees with the canonical chain nothing stored agrees. */
  lemma {:induction false} DisagreementRises(rows: Rows, chain: seq<Block>, lo: int, next: int, g: u32, h: u32)
    requires Spans(rows, lo, next) && Linked(rows) && IsChain(chain) && NoCollisions(rows, chain)
    requires g in rows && !Agrees(rows, chain, g) && h in rows && g <= h
    ensures !Agrees(rows, chain, h)
    decreases h - g
  {
    if g < h {
      assert (h - 1) in rows;
      DisagreementRises(rows, chain, lo, next, g, h - 1);
    }
  }

  /** The stored rows that are on the canonical chain. */
  ghost function Canonical(rows: Rows, chain: seq<Block>): Rows {
    map h: u32 | h in rows && Agrees(rows, chain, h) :: rows[h]
  }

  /** A genesis row that is not the canonical one. */
  ghost predicate ForeignGenesis(rows: Rows, chain: seq<Block>) {
    0 in rows && !Agrees(rows, chain, 0)
  }

  /** Rolling back to the fork leaves exactly the rows that are on the canonical
      chain, rows above the checked height included, unless the stored genesis
      itself is foreign: that row is the one the walk never removes. */
  lemma RollbackIsExactIff(rows: Rows, chain: seq<Block>, lo: int, next: int, from: u32)
    requires Spans(rows, lo, next) && Linked(rows) && IsChain(chain) && NoCollisions(rows, chain)
    requires from in rows && !Agrees(rows, chain, from)
    ensures RollbackTo(rows, ForkOf(rows, chain, from)) == Canonical(rows, chain)
       <==> !ForeignGenesis(rows, chain)
  {
    var f := ForkOf(rows, chain, from);
    if ForeignGenesis(rows, chain) {
      forall h: u32 | h in rows ensures !Agrees(rows, chain, h) {
        DisagreementRises(rows, chain, lo, next, 0, h);
      }
      assert 0 in RollbackTo(rows, f) && 0 !in Canonical(rows, chain);
    } else {
      forall h: u32 | h in rows ensures h <= f <==> Agrees(rows, chain, h) {
        if f < h {
          var g: u32 := f + 1;
          assert f < from;
          assert !StopsAt(rows, chain, g);
          DisagreementRises(rows, chain, lo, next, g, h);
        } else {
          assert StopsAt(rows, chain, f);
          assert f in rows;
          if !Agrees(rows, chain, h) {
            DisagreementRises(rows, chain, lo, next, h, f);
          }
        }
      }
    }
  }

  /** The fork of a walk that starts on a contiguous table never leaves it by
      more than one: it is a stored height, or the first height below the table. */
  lemma {:induction false} ForkStaysNear(rows: Rows, chain: seq<Block>, lo: int, next: int, from: u32)
    requires Spans(rows, lo, next) && 0 <= lo && from in rows
    ensures lo <= ForkOf(rows, chain, from) + 1 <= next
  {
    var f := ForkOf(rows, chain, from);
    if f + 1 < lo {
      var below: u32 := lo - 1;
      assert StopsAt(rows, chain, below);
    }
  }

  /** A fork deeper than the table: a chain that disagrees with every stored row. */
  ghost function Foreign(rows: Rows, n: nat): (chain: seq<Block>)
    requires n <= MAX_U32
    ensures |chain| == n && IsBatch(chain, 0)
    ensures forall h: u32 :: !Agrees(rows, chain, h)
  {
    seq(n, (h: int) requires 0 <= h < n =>
      Block(h, ForeignHash(rows, h), if h == 0 then "" else ForeignHash(rows, h - 1), None, 0, []))
  }

  ghost function ForeignHash(rows: Rows, h: u32): (s: string)
    ensures h in rows ==> s != rows[h].hash
  {
    if h in rows then rows[h].hash + "x" else "x"
  }

  /** The walk reaches ground that is no longer stored. */
  ghost predicate EndsBelowTable(rows: Rows, chain: seq<Block>, max: u32, from: u32) {
    !TooDeep(rows, chain, from, max, from) && ForkOf(rows, chain, from) !in rows
  }

  /** Exactly when some fork of the chain can lead the walk, unrefused, to the
      height just below the table: the depth bound is off, or it reaches past
      the lowest stored row. */
  lemma WalkCanLeaveTableIff(rows: Rows, lo: int, next: int, max: u32)
    requires Spans(rows, lo, next) && 0 < lo < next <= MAX_U32
    ensures (exists chain: seq<Block> :: IsChain(chain) && next <= |chain| && NoCollisions(rows, chain)
                                         && EndsBelowTable(rows, chain, max, next - 1))
       <==> max == 0 || next - lo <= max
  {
    var c: u32 := next - 1;
    forall chain: seq<Block> | EndsBelowTable(rows, chain, max, c)
      ensures max == 0 || next - lo <= max
    {
      ForkStaysNear(rows, chain, lo, next, c);
    }
    if max == 0 || next - lo <= max {
      var chain := Foreign(rows, next);
      ForkStaysNear(rows, chain, lo, next, c);
      var f := ForkOf(rows, chain, c);
      assert StopsAt(rows, chain, f);
      assert f == lo - 1;
      assert EndsBelowTable(rows, chain, max, c);
    }
  }
}
