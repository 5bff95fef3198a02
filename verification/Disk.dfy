/** The SD card seen by the storage stack: an array of sectors, each written atomically.
    A ghost history records the card after every write, so that a power failure between any
    two writes leaves one of the recorded states. */
module Disk {
  import opened Layout

  const MBR_BASE := 0x20800
  const ROOTDEV := 1
  const MAXOPBLOCKS := 10
  const NBUF := 3 * MAXOPBLOCKS
  const LOGSIZE := 3 * MAXOPBLOCKS

  type Image = seq<Block>

  class SdCard {
    var sector: Image
    ghost var history: seq<Image>

    constructor (image: Image)
      ensures sector == image && history == []
    {
      sector := image;
      history := [];
    }

    method Read(s: nat) returns (b: Block)
      requires s < |sector|
      ensures b == sector[s]
    {
      b := sector[s];
    }

    method Write(s: nat, b: Block)
      requires s < |sector|
      modifies this
      ensures sector == old(sector)[s := b]
      ensures history == old(history) + [sector]
    {
      sector := sector[s := b];
      history := history + [sector];
    }
  }
}
