/** The format of inc/fs.h byte by byte: where on the card of a booted image the fields of an inode, the bit
    of a block and the words of the superblock are, and which byte of the card is byte i of a file. */
module DiskFormat {
  import opened Layout
  import opened Blocks
  import opened Files
  import opened Updates
  import opened Disk
  import opened Directories
  import opened Mkfs
  import opened Transactions
  import opened Boot

  function Short(b: Block, o: nat): nat
    requires o + 2 <= 512
  {
    (b[o] as int) + 0x100 * (b[o + 1] as int)
  }

  function Long(b: Block, o: nat): nat
    requires o + 4 <= 512
  {
    Short(b, o) + 0x1_0000 * Short(b, o + 2)
  }

  lemma WordBytes(b: Block, j: nat)
    requires j < 128
    ensures Word(b, j) == Long(b, 4 * j)
    ensures Word(b, j) % 0x1_0000 == Short(b, 4 * j) && Word(b, j) / 0x1_0000 == Short(b, 4 * j + 2)
  {
  }

  /** struct dinode: four numbers of two bytes, and fourteen of four. */
  lemma InodeBytes(b: Block, k: nat)
    requires k < 8
    ensures
      var x, o := InodeAt(b, k), 64 * k;
      && x.typ == Short(b, o) && x.major == Short(b, o + 2) && x.minor == Short(b, o + 4) && x.nlink == Short(b, o + 6)
      && x.size == Long(b, o + 8) && |x.addrs| == 13 && forall i | 0 <= i < 13 :: x.addrs[i] == Long(b, o + 12 + 4 * i)
  {
    hide Word, Short, Long;
    WordBytes(b, 16 * k);
    WordBytes(b, 16 * k + 1);
    WordBytes(b, 16 * k + 2);
    forall i | 0 <= i < 13 ensures InodeAt(b, k).addrs[i] == Long(b, 64 * k + 12 + 4 * i) {
      WordBytes(b, 16 * k + 3 + i);
    }
  }

  /** Bit k % 8 of byte k / 8, counted from the lowest. */
  lemma BitOfByte(bits: seq<bv8>, k: nat)
    requires k < 8 * |bits|
    ensures Bit(bits, k) <==> (bits[k / 8] >> (k % 8)) & 1 == 1
  {
    ShiftedBit(bits[k / 8], k % 8);
  }

  lemma ShiftedBit(x: bv8, i: nat)
    requires i < 8
    ensures Has(x, i) <==> (x >> i) & 1 == 1
  {
    if i == 0 {
    } else if i == 1 {
    } else if i == 2 {
    } else if i == 3 {
    } else if i == 4 {
    } else if i == 5 {
    } else if i == 6 {
    } else {
    }
  }

  lemma SuperWord(i: nat)
    requires i < 7
    ensures Long(SuperBlock(), 4 * i) == SuperWords()[i]
  {
    hide Word, Long, PutWords;
    WordBytes(SuperBlock(), i);
    PutThenWords(Zeroes(), 0, SuperWords(), i);
  }

  /** struct superblock: size, nblocks, ninodes, nlog, logstart, inodestart, bmapstart. */
  lemma SuperBytes()
    ensures
      var b := SuperBlock();
      && Long(b, 0) == 1000 && Long(b, 4) == 941 && Long(b, 8) == 200 && Long(b, 12) == 30
      && Long(b, 16) == 2 && Long(b, 20) == 32 && Long(b, 24) == 58
  {
    hide SuperBlock, Word, Long;
    forall i: nat | i < 7 ensures Long(SuperBlock(), 4 * i) == SuperWords()[i] {
      SuperWord(i);
    }
    assert Long(SuperBlock(), 4 * 0) == SuperWords()[0] && Long(SuperBlock(), 4 * 1) == SuperWords()[1];
    assert Long(SuperBlock(), 4 * 2) == SuperWords()[2] && Long(SuperBlock(), 4 * 3) == SuperWords()[3];
    assert Long(SuperBlock(), 4 * 4) == SuperWords()[4] && Long(SuperBlock(), 4 * 5) == SuperWords()[5];
    assert Long(SuperBlock(), 4 * 6) == SuperWords()[6];
  }

  lemma PlaceOfBlock(s: State, g: Geometry, inum: nat, bn: nat)
    requires Owned(s, g) && IsInode(s, inum) && HoleFree(s, inum) && bn < 140 && bn * 512 < s.inode[inum].size
    ensures 0 < DataAddr(s, inum, bn) < |s.block|
    ensures
      var x := s.inode[inum];
      if bn < 12 then DataAddr(s, inum, bn) == x.addrs[bn]
      else x.addrs[12] < |s.block| && DataAddr(s, inum, bn) == Long(s.block[x.addrs[12]], 4 * (bn - 12))
  {
    hide Word, Long;
    assert SlotOk(s, g, DataSlot(inum, bn)) && DataAddr(s, inum, bn) != 0;
    if bn >= 12 {
      assert SlotOk(s, g, Slot(inum, 12));
      WordBytes(s.block[s.inode[inum].addrs[12]], bn - 12);
    }
  }

  /** Byte i of a file: the first twelve blocks have their addresses in the inode, the others in the indirect
      block, whose address is the thirteenth. */
  lemma FileBytes(s: State, g: Geometry, inum: nat, i: nat)
    requires Owned(s, g) && IsInode(s, inum) && HoleFree(s, inum) && i < s.inode[inum].size <= 140 * 512
    ensures
      var x := s.inode[inum];
      if i / 512 < 12 then x.addrs[i / 512] < |s.block| && File(s, inum)[i] == s.block[x.addrs[i / 512]][i % 512]
      else && x.addrs[12] < |s.block|
           && var a := Long(s.block[x.addrs[12]], 4 * (i / 512 - 12));
           a < |s.block| && File(s, inum)[i] == s.block[a][i % 512]
  {
    hide Word, Long, SlotOk, Owned;
    var bn := i / 512;
    PlaceOfBlock(s, g, inum, bn);
    assert File(s, inum)[i] == Content(s, inum, i);
  }

  /** An inode and the bit of a block on the card of a booted image. */
  lemma OnCard(d: Image, v: Volume)
    requires Stored(d, Geo(), v)
    ensures forall j | 0 <= j < |v.inode| ::
              && 0x20820 + j / 8 < |d| && v.inode[j].typ == Short(d[0x20820 + j / 8], 64 * (j % 8))
              && v.inode[j].nlink == Short(d[0x20820 + j / 8], 64 * (j % 8) + 6)
              && v.inode[j].size == Long(d[0x20820 + j / 8], 64 * (j % 8) + 8)
    ensures forall b | 0 <= b < 8 * |v.bitmap| ::
              0x2083A + b / 4096 < |d| && (Bit(v.bitmap, b) <==> (d[0x2083A + b / 4096][b / 8 % 512] as bv8 >> (b % 8)) & 1 == 1)
  {
    forall j | 0 <= j < |v.inode|
      ensures
        && 0x20820 + j / 8 < |d| && v.inode[j].typ == Short(d[0x20820 + j / 8], 64 * (j % 8))
        && v.inode[j].nlink == Short(d[0x20820 + j / 8], 64 * (j % 8) + 6)
        && v.inode[j].size == Long(d[0x20820 + j / 8], 64 * (j % 8) + 8)
    {
      assert InodeStored(d, Geo(), v, j);
      InodeBytes(d[0x20820 + j / 8], j % 8);
    }
    forall b | 0 <= b < 8 * |v.bitmap|
      ensures 0x2083A + b / 4096 < |d| && (Bit(v.bitmap, b) <==> (d[0x2083A + b / 4096][b / 8 % 512] as bv8 >> (b % 8)) & 1 == 1)
    {
      assert BitsStored(d, Geo(), v, b / 8);
      BitOfByte(v.bitmap, b);
    }
  }
}
