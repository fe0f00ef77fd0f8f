/** A data source over the canonical chain. */
module Source {
  import opened Prelude
  import opened Chain

  /** What the tip stream delivers, and the chain the source answers from by then. */
  datatype Delivery = Delivery(chain: seq<Block>, batch: Result<seq<Block>>)

  lemma FrontOfSlice<T>(s: seq<T>, i: nat, j: nat, n: nat)
    requires i + n <= j <= |s|
    ensures s[i..j][..n] == s[i..i + n]
  {
  }

  /** `cap` is the source's own batch size. A `flaky` source may fail any request,
      and may answer a window with no block at all; a `brief` one may answer with
      fewer blocks than there are. */
  class DataSource {
    var chain: seq<Block>
    const cap: u32
    const flaky: bool
    const brief: bool

    ghost predicate Valid()
      reads this
    {
      IsChain(chain) && |chain| <= MAX_U32
    }

    constructor (chain: seq<Block>, cap: u32, flaky: bool, brief: bool)
      requires IsChain(chain) && |chain| <= MAX_U32
      ensures Valid() && this.chain == chain && this.cap == cap && this.flaky == flaky && this.brief == brief
    {
      this.chain := chain;
      this.cap := cap;
      this.flaky := flaky;
      this.brief := brief;
    }

    method FinalizedHead() returns (r: Result<u32>)
      requires Valid()
      ensures r.Ok? ==> r.value == |chain| - 1
      ensures r.Err? ==> flaky && r.error.Source?
    {
      var fault: bool := *;
      if flaky && fault {
        return Err(Error.Source("finalized head"));
      }
      return Ok(|chain| - 1);
    }

    /** Fetch and decode one block. */
    method FetchOne(height: u32) returns (r: Result<Block>)
      requires Valid()
      ensures r.Ok? ==> height < |chain| && r.value == chain[height]
      ensures r.Err? ==> (flaky || |chain| <= height) && r.error.Source?
    {
      var fault: bool := *;
      if (flaky && fault) || |chain| <= height {
        return Err(Error.Source("at_block"));
      }
      return Ok(chain[height]);
    }

    /** The blocks of `[from, to]`, in order: a prefix of the window no longer than
        the source's cap, non-empty unless the source is flaky or the window empty,
        and as long as it may be unless it is flaky or brief. */
    method FetchBatch(from: u32, to: u32) returns (r: Result<seq<Block>>)
      requires Valid()
      ensures to < from ==> r == Ok([])
      ensures from <= to && r.Ok? ==>
                var n := |r.value|;
                && n <= Min(to - from + 1, Max(cap, 1))
                && from + n <= |chain|
                && r.value == chain[from..from + n]
                && (n == 0 ==> flaky)
                && (n == Min(to - from + 1, Max(cap, 1)) || flaky || brief)
      ensures r.Err? ==> (flaky || |chain| <= to) && r.error.Source?
    {
      if from > to {
        return Ok([]);
      }
      var end := Min(to, SatAdd(from, SatSub(cap, 1)));
      var blocks: seq<Block> := [];
      for h := from to end + 1
        invariant |blocks| == h - from && (from < h ==> h <= |chain| && blocks == chain[from..h])
      {
        var b := FetchOne(h);
        if b.Err? {
          return Err(b.error);
        }
        blocks := blocks + [b.value];
      }
      // A streaming source may close the answer early.
      var n: nat :| n <= |blocks| && (flaky || 0 < n) && (flaky || brief || n == |blocks|);
      assert blocks == chain[from..end + 1];
      FrontOfSlice(chain, from, end + 1, n);
      return Ok(blocks[..n]);
    }

    /** Time passes until a delivery: the chain may have been reorganised since the last one. */
    method Await(d: Delivery)
      requires IsChain(d.chain) && |d.chain| <= MAX_U32
      modifies this`chain
      ensures Valid() && chain == d.chain
    {
      chain := d.chain;
    }
  }

  /** The live end of a source: a stream of finalized blocks that is subscribed to
      when it is first asked for one, and again after an error. `chain` is every
      block there will be, the first `finalized` of them final by now; `slot` holds
      the open subscription, as the height it delivers next. */
  class Tip {
    const chain: seq<Block>
    const maxRetries: u32
    const flaky: bool
    var finalized: nat
    var slot: Option<nat>

    ghost predicate Valid()
      reads this
    {
      IsChain(chain) && 0 < finalized <= |chain| && (slot.Some? ==> slot.value <= finalized)
    }

    constructor (chain: seq<Block>, finalized: nat, maxRetries: u32, flaky: bool)
      requires IsChain(chain) && 0 < finalized <= |chain|
      ensures Valid() && slot == None && this.finalized == finalized
      ensures this.chain == chain && this.maxRetries == maxRetries && this.flaky == flaky
    {
      this.chain, this.finalized, this.slot := chain, finalized, None;
      this.maxRetries, this.flaky := maxRetries, flaky;
    }

    /** Time passes, and more blocks may become final. */
    method Pass()
      requires Valid()
      modifies this`finalized
      ensures Valid() && old(finalized) <= finalized
    {
      var n: nat :| finalized <= n <= |chain|;
      finalized := n;
    }

    /** The heights an open subscription goes on with, or a new one may start at:
        the head of its moment, or the one after. */
    ghost predicate GoesOn(was: Option<nat>, final: nat, from: nat) {
      match was case Some(next) => from == next case None => final <= from + 1
    }

    /** One attempt: subscribe if need be, then take one block, if there is one. */
    method NextFinalizedOnce() returns (r: Result<seq<Block>>)
      requires Valid()
      modifies this
      ensures Valid() && old(finalized) <= finalized
      ensures r.Err? ==> flaky && r.error.Source?
      ensures r.Ok? ==>
                && slot.Some? && |r.value| <= 1 && |r.value| <= slot.value
                && r.value == chain[slot.value - |r.value|..slot.value]
                && GoesOn(old(slot), old(finalized), slot.value - |r.value|)
                && (r.value == [] ==> slot.value == finalized)
    {
      var fault: bool := *;
      if slot.None? {
        if flaky && fault {
          return Err(Error.Source("subscribe finalized"));
        }
        var from: nat :| finalized <= from + 1 <= finalized + 1;
        slot := Some(from);
      }
      Pass();
      fault := *;
      if flaky && fault {
        return Err(Error.Source("finalized stream"));
      }
      if slot.value == finalized {
        return Ok([]);
      }
      var height := slot.value;
      slot := Some(height + 1);
      return Ok([chain[height]]);
    }

    /** The next delivery. While the subscription lives its deliveries are the
        blocks of consecutive heights, none skipped and none repeated, and there is
        none only when every final block has been delivered. After an
        error it is gone: what comes next starts at the head of that moment, and
        what became final in between is never delivered. It gives up only when the
        budget of retries is spent. */
    method NextFinalized() returns (r: Result<seq<Block>>, attempts: nat)
      requires Valid()
      modifies this
      ensures Valid() && old(finalized) <= finalized
      ensures 1 <= attempts <= maxRetries + 1 && (1 < attempts ==> flaky)
      ensures r.Err? ==> flaky && r.error.Source? && slot == None && attempts == maxRetries + 1
      ensures r.Ok? ==>
                && slot.Some? && |r.value| <= 1 && |r.value| <= slot.value
                && r.value == chain[slot.value - |r.value|..slot.value]
                && (if attempts == 1 then GoesOn(old(slot), old(finalized), slot.value - |r.value|)
                    else old(finalized) <= slot.value - |r.value| + 1)
                && (r.value == [] ==> slot.value == finalized)
    {
      var attempt: u32 := 0;
      attempts := 0;
      while true
        invariant Valid() && old(finalized) <= finalized && attempt <= maxRetries && attempts == attempt
        invariant attempt == 0 ==> slot == old(slot) && finalized == old(finalized)
        invariant attempt > 0 ==> slot == None && flaky
        decreases maxRetries - attempt
      {
        r := NextFinalizedOnce();
        attempts := attempts + 1;
        if r.Ok? {
          return;
        }
        slot := None;
        if attempt >= maxRetries {
          return;
        }
        attempt := attempt + 1;
      }
    }
  }
}
