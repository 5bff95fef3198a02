/** On-disk formats of inc/fs.h: little-endian words in a block, bits of the free map, inodes. */
module Layout {

  const BSIZE: nat := 512
  const NDIRECT: nat := 12
  const NINDIRECT: nat := BSIZE / 4
  const MAXFILE: nat := NDIRECT + NINDIRECT
  const BPB: nat := BSIZE * 8
  const IPB: nat := 8          // BSIZE / sizeof(struct dinode), 64 bytes each

  const T_DIR: nat := 1
  const T_FILE: nat := 2
  const T_DEV: nat := 3

  type u16 = x: nat | x < 0x1_0000
  type u32 = x: nat | x < 0x1_0000_0000
  newtype byte = x: int | 0 <= x < 256

  type Block = b: seq<byte> | |b| == BSIZE witness seq(BSIZE, _ => 0)

  function Zeroes(): (b: Block)
    ensures forall i | 0 <= i < BSIZE :: b[i] == 0
  {
    seq(BSIZE, _ => 0)
  }

  /** The j-th uint32_t of a block. */
  function Word(b: Block, j: nat): u32
    requires j < NINDIRECT
  {
    (b[4 * j] as int) + 0x100 * (b[4 * j + 1] as int)
      + 0x1_0000 * (b[4 * j + 2] as int) + 0x100_0000 * (b[4 * j + 3] as int)
  }

  function PutWord(b: Block, j: nat, w: nat): Block
    requires j < NINDIRECT && w < 0x1_0000_0000
  {
    b[4 * j := (w % 0x100) as byte]
     [4 * j + 1 := (w / 0x100 % 0x100) as byte]
     [4 * j + 2 := (w / 0x1_0000 % 0x100) as byte]
     [4 * j + 3 := (w / 0x100_0000) as byte]
  }

  lemma WordSplit(w: nat)
    requires w < 0x1_0000_0000
    ensures w == w % 0x100 + 0x100 * (w / 0x100 % 0x100) + 0x1_0000 * (w / 0x1_0000 % 0x100) + 0x100_0000 * (w / 0x100_0000)
  {
    assert w / 0x1_0000 == (w / 0x100) / 0x100;
    assert w / 0x100_0000 == (w / 0x1_0000) / 0x100;
  }

  /** A stored word is read back, and its neighbours are kept. */
  lemma PutThenWord(b: Block, j: nat, w: nat, i: nat)
    requires j < NINDIRECT && i < NINDIRECT && w < 0x1_0000_0000
    ensures Word(PutWord(b, j, w), i) == if i == j then w else Word(b, i)
  {
    WordSplit(w);
  }

  /** Words stored one behind the other. */
  function PutWords(b: Block, j: nat, ws: seq<nat>): Block
    requires j + |ws| <= NINDIRECT && forall i | 0 <= i < |ws| :: ws[i] < 0x1_0000_0000
  {
    if ws == [] then b else PutWord(PutWords(b, j, ws[..|ws| - 1]), j + |ws| - 1, ws[|ws| - 1])
  }

  lemma {:induction false} PutThenWords(b: Block, j: nat, ws: seq<nat>, i: nat)
    requires j + |ws| <= NINDIRECT && i < NINDIRECT && forall k | 0 <= k < |ws| :: ws[k] < 0x1_0000_0000
    ensures Word(PutWords(b, j, ws), i) == if j <= i < j + |ws| then ws[i - j] else Word(b, i)
  {
    hide Word, PutWord;
    if ws != [] {
      var last := |ws| - 1;
      PutThenWords(b, j, ws[..last], i);
      PutThenWord(PutWords(b, j, ws[..last]), j + last, ws[last], i);
    }
  }

  /** The n words from the j-th on. */
  function Words(b: Block, j: nat, n: nat): (ws: seq<u32>)
    requires j + n <= NINDIRECT
    ensures |ws| == n
  {
    seq<u32>(n, i requires 0 <= i < n => Word(b, j + i))
  }

  /** Stored words are read back, and words beside them are kept. */
  lemma PutWordsRead(b: Block, j: nat, ws: seq<nat>, i: nat)
    requires j + |ws| <= NINDIRECT && i + |ws| <= NINDIRECT && forall k | 0 <= k < |ws| :: ws[k] < 0x1_0000_0000
    ensures i == j ==> Words(PutWords(b, j, ws), i, |ws|) == ws
    ensures i + |ws| <= j || j + |ws| <= i ==> Words(PutWords(b, j, ws), i, |ws|) == Words(b, i, |ws|)
  {
    hide Word, PutWords;
    var now := Words(PutWords(b, j, ws), i, |ws|);
    forall k | 0 <= k < |ws| ensures now[k] == if j <= i + k < j + |ws| then ws[i + k - j] else Words(b, i, |ws|)[k] {
      PutThenWords(b, j, ws, i + k);
    }
  }

  // A byte of the free map as eight bits

  function ToByte(x: bv8): byte { x as int as byte }

  function FromByte(x: byte): bv8 { x as bv8 }

  lemma ByteKeepsBits(x: bv8)
    ensures FromByte(ToByte(x)) == x
  {
  }

  // The free map: bit k%8 of byte k/8 belongs to block k.

  function Mask(k: nat): bv8
    requires k < 8
  {
    if k == 0 then 1 else if k == 1 then 2 else if k == 2 then 4 else if k == 3 then 8
    else if k == 4 then 16 else if k == 5 then 32 else if k == 6 then 64 else 128
  }

  predicate Has(x: bv8, i: nat)
    requires i < 8
  {
    x & Mask(i) != 0
  }

  function With(x: bv8, i: nat): bv8
    requires i < 8
  {
    x | Mask(i)
  }

  function Drop(x: bv8, i: nat): bv8
    requires i < 8
  {
    x & !Mask(i)
  }

  lemma MaskedByte(x: bv8, i: nat, j: nat)
    requires i < 8 && j < 8
    ensures Has(With(x, i), j) == (i == j || Has(x, j))
    ensures Has(Drop(x, i), j) == (i != j && Has(x, j))
  {
  }

  predicate Bit(bits: seq<bv8>, k: nat)
    requires k < 8 * |bits|
  {
    Has(bits[k / 8], k % 8)
  }

  function SetBit(bits: seq<bv8>, k: nat): (r: seq<bv8>)
    requires k < 8 * |bits|
    ensures |r| == |bits|
  {
    bits[k / 8 := With(bits[k / 8], k % 8)]
  }

  function ClearBit(bits: seq<bv8>, k: nat): (r: seq<bv8>)
    requires k < 8 * |bits|
    ensures |r| == |bits|
  {
    bits[k / 8 := Drop(bits[k / 8], k % 8)]
  }

  /** Marking and freeing a block change its own bit only. */
  lemma BitAfter(bits: seq<bv8>, k: nat, j: nat)
    requires k < 8 * |bits| && j < 8 * |bits|
    ensures Bit(SetBit(bits, k), j) == (j == k || Bit(bits, j))
    ensures Bit(ClearBit(bits, k), j) == (j != k && Bit(bits, j))
  {
    hide Has, With, Drop;
    MaskedByte(bits[k / 8], k % 8, j % 8);
  }
}
