/** Decoded blocks and hash-linked chains of them. */
module Chain {
  import opened Prelude

  /** A decoded event. `assetId` and `owner` stand for the two fields that a
      handler extracts from the dynamic value the event carries. */
  datatype Event = Event(index: u32, pallet: string, name: string, assetId: Option<nat>, owner: Option<string>)

  datatype Block = Block(
    number: u32,
    hash: string,
    parent: string,
    timestamp: Option<u64>,
    specVersion: u32,
    events: seq<Event>)

  /** What a source promises of one batch: contiguous heights from `from`,
      every block naming the hash of the block before it. */
  ghost predicate IsBatch(bs: seq<Block>, from: int) {
    && (forall i :: 0 <= i < |bs| ==> bs[i].number == from + i)
    && (forall i, j :: 0 <= i < |bs| && 0 <= j < |bs| && j == i + 1 ==> bs[j].parent == bs[i].hash)
  }

  /** A canonical chain: a batch that starts at genesis. `chain[h]` is the block at height `h`. */
  ghost predicate IsChain(chain: seq<Block>) {
    0 < |chain| && IsBatch(chain, 0)
  }

  lemma SliceIsBatch(bs: seq<Block>, from: int, i: int, j: int)
    requires IsBatch(bs, from) && 0 <= i <= j <= |bs|
    ensures IsBatch(bs[i..j], from + i)
  {
  }
}
