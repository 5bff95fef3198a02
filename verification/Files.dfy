/** Block allocation and file contents: kern/fs.c from balloc to writei.  The fields are the
    bitmap, the inodes (cached and on disk) and the blocks, as an operation sees them through the
    buffer cache.  Not ok is a panic of the C code, after which the machine stops. */
module Files {
  import opened Layout
  import opened Blocks
  import opened Updates

  /** All blocks that hold a byte of the file are allocated, and the size is within range. */
  ghost predicate HoleFree(s: State, inum: nat)
    requires IsInode(s, inum)
  {
    && s.inode[inum].size <= MAXFILE * BSIZE
    && forall bn | 0 <= bn < MAXFILE && bn * BSIZE < s.inode[inum].size :: DataAddr(s, inum, bn) != 0
  }

  ghost predicate AllHoleFree(s: State) {
    forall j | IsInode(s, j) :: HoleFree(s, j)
  }

  /** The bytes of a file. */
  ghost function File(s: State, inum: nat): (f: seq<byte>)
    requires IsInode(s, inum) && s.inode[inum].size <= MAXFILE * BSIZE
    ensures |f| == s.inode[inum].size
  {
    seq(s.inode[inum].size, i requires 0 <= i < s.inode[inum].size => Content(s, inum, i))
  }

  /** What naming one block may add to the log: the blocks `named` and the free-map blocks `bits` of
      at most `allocs` allocations. */
  ghost predicate LogGrowth(before: set<nat>, after: set<nat>, named: set<nat>, bits: set<nat>, allocs: nat) {
    after <= before + named + bits && |bits| <= allocs
  }

  ghost predicate BitBlocks(g: Geometry, bits: set<nat>) {
    forall x | x in bits :: exists b :: 0 <= b < g.size && x == BitBlock(g, b)
  }

  class Fs {
    const g: Geometry
    var bitmap: seq<bv8>
    var inode: seq<Inode>           // the in-memory copies
    var dinode: seq<Inode>          // the copies in the inode blocks
    var block: seq<Block>
    ghost var owner: map<nat, Slot>
    var updates: seq<Update>        // what was passed to log_write since the transaction began
    ghost var logged: set<nat>      // and the blocks of that
    ghost var base: Volume          // the blocks as they were then

    constructor (g: Geometry, bitmap: seq<bv8>, inode: seq<Inode>, block: seq<Block>, ghost owner: map<nat, Slot>)
      ensures this.g == g && S() == State(bitmap, inode, block, owner) && dinode == inode && logged == {}
      ensures Recorded() && updates == []
    {
      this.g := g;
      this.bitmap := bitmap;
      this.inode := inode;
      this.dinode := inode;
      this.block := block;
      this.owner := owner;
      this.updates, this.logged, this.base := [], {}, Volume(bitmap, inode, block);
      new;
      LeadsNowhere(g, base);
    }

    ghost function S(): State
      reads this
    {
      State(bitmap, inode, block, owner)
    }

    ghost function Now(): Volume
      reads this
    {
      Volume(bitmap, dinode, block)
    }

    /** Every change of a block was passed to log_write. */
    ghost predicate Recorded()
      reads this
    {
      Leads(g, base, updates, Now(), logged)
    }

    /** What holds between operations: the cached inodes are written through. */
    ghost predicate Valid()
      reads this
    {
      Owned(S(), g) && AllHoleFree(S()) && inode == dinode && Recorded()
    }

    /** The start of a transaction. */
    method Begin()
      requires Valid()
      modifies this`updates, this`logged, this`base
      ensures Valid() && updates == [] && logged == {} && base == Now()
    {
      updates, logged, base := [], {}, Now();
      LeadsNowhere(g, base);
    }

    /** Set the bit of a block in the free map. */
    method Mark(b: nat)
      requires b < 8 * |bitmap| && Recorded()
      modifies this`bitmap, this`updates, this`logged
      ensures bitmap == SetBit(old(bitmap), b) && logged == old(logged) + {BitBlock(g, b)} && Recorded()
    {
      hide With, Leads;
      BitTarget(b);
      var u := SetByte(b / 8, SetBit(bitmap, b)[b / 8]);
      LeadsOn(g, base, updates, Now(), logged, u);
      bitmap := SetBit(bitmap, b);
      updates := updates + [u];
      logged := logged + {BitBlock(g, b)};
    }

    /** New contents for a block. */
    method Rewrite(b: nat, data: Block)
      requires g.nmeta <= b < |block| && Recorded()
      modifies this`block, this`updates, this`logged
      ensures block == old(block)[b := data] && logged == old(logged) + {b} && Recorded()
    {
      hide Leads;
      LeadsOn(g, base, updates, Now(), logged, SetBlock(b, data));
      block := block[b := data];
      updates := updates + [SetBlock(b, data)];
      logged := logged + {b};
    }

    /** Allocate a zeroed block: the first one whose bit is clear. */
    method Balloc() returns (ok: bool, b: nat)
      requires Owned(S(), g) && Recorded()
      modifies this`bitmap, this`block, this`updates, this`logged
      ensures Recorded()
      ensures ok ==>
                && b < g.size && !Bit(old(bitmap), b) && (forall k | 0 <= k < b :: Bit(old(bitmap), k))
                && bitmap == SetBit(old(bitmap), b) && block == old(block)[b := Zeroes()]
                && logged == old(logged) + {BitBlock(g, b), b}
      ensures !ok ==>
                && (forall k | 0 <= k < g.size :: Bit(old(bitmap), k))
                && bitmap == old(bitmap) && block == old(block) && logged == old(logged)
      ensures if ok then Spare(S(), g) + 1 == Spare(old(S()), g) else Spare(old(S()), g) == 0
    {
      hide Bit, SlotOk, OwnerOk, Leads, FreeBlocks;
      var first := 0;
      while first < g.size
        invariant forall k | 0 <= k < first && k < g.size :: Bit(bitmap, k)
        invariant first % BPB == 0
        invariant Recorded() && bitmap == old(bitmap) && block == old(block) && logged == old(logged)
      {
        var bi := 0;
        while bi < BPB && first + bi < g.size
          invariant 0 <= bi <= BPB && forall k | 0 <= k < first + bi && k < g.size :: Bit(bitmap, k)
          invariant Recorded() && bitmap == old(bitmap) && block == old(block) && logged == old(logged)
        {
          if !Bit(bitmap, first + bi) {
            OneLessFree(bitmap, first + bi, g.size);
            Mark(first + bi);
            Rewrite(first + bi, Zeroes());
            return true, first + bi;
          }
          bi := bi + 1;
        }
        first := first + BPB;
      }
      NoneFree(bitmap, g.size);
      return false, 0;
    }

    /** Free a block; not ok is the panic on a free one. */
    method Bfree(b: nat) returns (ok: bool)
      requires b < 8 * |bitmap| && Recorded()
      modifies this`bitmap, this`updates, this`logged
      ensures Recorded()
      ensures ok == Bit(old(bitmap), b)
      ensures bitmap == if ok then ClearBit(old(bitmap), b) else old(bitmap)
      ensures logged == if ok then old(logged) + {BitBlock(g, b)} else old(logged)
    {
      if !Bit(bitmap, b) {
        return false;
      }
      hide Drop, Leads;
      BitTarget(b);
      var u := SetByte(b / 8, ClearBit(bitmap, b)[b / 8]);
      LeadsOn(g, base, updates, Now(), logged, u);
      bitmap := ClearBit(bitmap, b);
      updates := updates + [u];
      logged := logged + {BitBlock(g, b)};
      ok := true;
    }

    /** A fresh block for a pointer of an inode that has none. */
    method AllocPointer(inum: nat, k: nat) returns (ok: bool, b: nat)
      requires Owned(S(), g) && Recorded() && IsInode(S(), inum) && k <= NDIRECT && inode[inum].addrs[k] == 0
      modifies this`bitmap, this`block, this`inode, this`updates, this`logged, this`owner
      ensures ok ==>
                && b < g.size && !Bit(old(bitmap), b) && b < 0x1_0000_0000
                && S() == WithPointer(old(S()), inum, k, b)
                && Owned(S(), g) && Grown(old(S()), S(), inum) && SameContent(old(S()), S())
                && g.nmeta <= b && Addr(S(), Slot(inum, k)) == b
                && logged == old(logged) + {BitBlock(g, b), b}
                && Spare(S(), g) + 1 == Spare(old(S()), g) && OnlyPlace(old(S()), S(), Slot(inum, k))
      ensures !ok ==> S() == old(S()) && logged == old(logged) && forall k | 0 <= k < g.size :: Bit(bitmap, k)
      ensures !ok ==> Spare(old(S()), g) == 0
      ensures Recorded()
    {
      hide Has, With, Word, Leads, FreeBlocks;
      ghost var s := S();
      ok, b := Balloc();
      if ok {
        inode := inode[inum := SetPointer(inode[inum], k, b)];
        owner := owner[b := Slot(inum, k)];
        PointerOwned(s, g, inum, k, b);
        PointerContent(s, g, inum, k, b);
      }
    }

    /** A fresh block for an entry of an indirect block. */
    method AllocEntry(inum: nat, j: nat) returns (ok: bool, b: nat)
      requires Owned(S(), g) && Recorded() && IsInode(S(), inum) && j < NINDIRECT
      requires inode[inum].addrs[NDIRECT] != 0 && Addr(S(), Slot(inum, NDIRECT + 1 + j)) == 0
      modifies this`bitmap, this`block, this`updates, this`logged, this`owner
      ensures ok ==>
                && b < g.size && !Bit(old(bitmap), b) && b < 0x1_0000_0000
                && inode[inum].addrs[NDIRECT] < |old(block)|
                && S() == WithEntry(old(S()), inum, j, b)
                && Owned(S(), g) && Grown(old(S()), S(), inum) && SameContent(old(S()), S())
                && g.nmeta <= b && Addr(S(), Slot(inum, NDIRECT + 1 + j)) == b
                && logged == old(logged) + {BitBlock(g, b), b, inode[inum].addrs[NDIRECT]}
                && Spare(S(), g) + 1 == Spare(old(S()), g) && OnlyPlace(old(S()), S(), Slot(inum, NDIRECT + 1 + j))
      ensures !ok ==> S() == old(S()) && logged == old(logged) && forall k | 0 <= k < g.size :: Bit(bitmap, k)
      ensures !ok ==> Spare(old(S()), g) == 0
      ensures Recorded()
    {
      hide Has, With, Word, Leads, FreeBlocks, OnlyPlace, Grown, SameContent;
      ghost var s := S();
      assert SlotOk(s, g, Slot(inum, NDIRECT));
      ok, b := Balloc();
      if ok {
        var a := inode[inum].addrs[NDIRECT];
        Rewrite(a, PutWord(block[a], j, b));
        owner := owner[b := Slot(inum, NDIRECT + 1 + j)];
        EntryOwned(s, g, inum, j, b);
        EntryContent(s, g, inum, j, b);
        EntryAddr(s, g, inum, j, b, Slot(inum, NDIRECT + 1 + j));
      }
    }

    /** A pointer of an inode, allocated if it is empty. */
    method Pointer(inum: nat, k: nat) returns (ok: bool, addr: nat, ghost bits: set<nat>)
      requires Owned(S(), g) && Recorded() && IsInode(S(), inum) && k <= NDIRECT
      modifies this`bitmap, this`block, this`inode, this`updates, this`logged, this`owner
      ensures Owned(S(), g) && Recorded()
      ensures ok ==> Named(old(S()), S(), g, Slot(inum, k), addr, bits, {addr}, old(logged), logged)
      ensures Addr(old(S()), Slot(inum, k)) != 0 ==> updates == old(updates)
      ensures !ok ==> Addr(old(S()), Slot(inum, k)) == 0 && forall k | 0 <= k < g.size :: Bit(bitmap, k)
      ensures if ok then Takes(old(S()), S(), g, Slot(inum, k)) else Spare(old(S()), g) == 0 && S() == old(S())
    {
      hide Leads, Spare;
      ok, bits := true, {};
      addr := inode[inum].addrs[k];
      assert SlotOk(S(), g, Slot(inum, k));
      if addr == 0 {
        ok, addr := AllocPointer(inum, k);
        bits := {BitBlock(g, addr)};
      }
    }

    /** An entry of the indirect block of an inode, allocated if it is empty. */
    method Entry(inum: nat, j: nat) returns (ok: bool, addr: nat, ghost bits: set<nat>)
      requires Owned(S(), g) && Recorded() && IsInode(S(), inum) && j < NINDIRECT && Addr(S(), Slot(inum, NDIRECT)) != 0
      modifies this`bitmap, this`block, this`updates, this`logged, this`owner
      ensures Owned(S(), g) && Recorded()
      ensures ok ==> Named(old(S()), S(), g, Slot(inum, NDIRECT + 1 + j), addr, bits,
                           {addr, Addr(old(S()), Slot(inum, NDIRECT))}, old(logged), logged)
      ensures Addr(old(S()), Slot(inum, NDIRECT + 1 + j)) != 0 ==> updates == old(updates)
      ensures !ok ==> Addr(old(S()), Slot(inum, NDIRECT + 1 + j)) == 0 && forall k | 0 <= k < g.size :: Bit(bitmap, k)
      ensures if ok then Takes(old(S()), S(), g, Slot(inum, NDIRECT + 1 + j)) else Spare(old(S()), g) == 0
    {
      hide Leads, Spare, Word, Addr, PutWord, SetBit, Bit, Content, SameContent, Grown, Owned, WithEntry, OnlyPlace;
      ok, bits := true, {};
      var a := inode[inum].addrs[NDIRECT];
      PlaceAddr(S(), g, inum, NDIRECT);
      PlaceAddr(S(), g, inum, NDIRECT + 1 + j);
      MetaFirst(S(), g);
      addr := Word(block[a], j);
      if addr != 0 {
        NamedAlready(S(), g, Slot(inum, NDIRECT + 1 + j), {addr, a}, logged);
      } else {
        ok, addr := AllocEntry(inum, j);
        bits := {BitBlock(g, addr)};
      }
    }

    /** The part of bmap beyond the direct pointers. */
    method Indirect(inum: nat, j: nat) returns (ok: bool, addr: nat, ghost bits: set<nat>)
      requires Owned(S(), g) && Recorded() && IsInode(S(), inum) && j < NINDIRECT
      modifies this`bitmap, this`block, this`inode, this`updates, this`logged, this`owner
      ensures Owned(S(), g) && Recorded()
      ensures ok ==> Mapped(old(S()), S(), g, inum, NDIRECT + j, addr, bits, old(logged), logged)
      ensures BmapFresh(old(S()), inum, NDIRECT + j) == 0 ==> updates == old(updates)
      ensures !ok ==> BmapFresh(old(S()), inum, NDIRECT + j) > 0 && forall k | 0 <= k < g.size :: Bit(bitmap, k)
      ensures if ok then TakesFor(old(S()), S(), g, inum, NDIRECT + j) else Spare(old(S()), g) < BmapFresh(old(S()), inum, NDIRECT + j)
    {
      hide Word, Owned, Content, SameContent, BitBlocks, LogGrowth, Grown, Addr, Bit, Named, Mapped, Leads, Spare, Takes, TakesFor;
      ghost var s, l := S(), logged;
      FreshParts(s, inum, j);
      ok, addr, bits := Pointer(inum, NDIRECT);
      if ok {
        ghost var s1, l1, a, more := S(), logged, addr, {};
        NamedInode(s, s1, g, Slot(inum, NDIRECT), a, bits, {a}, l, l1);
        TookPointer(s, s1, g, inum, j);
        ok, addr, more := Entry(inum, j);
        if ok {
          TookBoth(s, s1, S(), g, inum, j);
          NamedTwice(s, s1, S(), g, inum, j, a, addr, bits, more, l, l1, logged);
          bits := bits + more;
        }
      }
    }

    /** The block that holds block bn of a file, allocated if there was none.  Not ok: bn is out of
        range or there is no free block. */
    method Bmap(inum: nat, bn: nat) returns (ok: bool, addr: nat, ghost bits: set<nat>)
      requires Owned(S(), g) && Recorded() && IsInode(S(), inum)
      modifies this`bitmap, this`block, this`inode, this`updates, this`logged, this`owner
      ensures Owned(S(), g) && Recorded()
      ensures ok ==> bn < MAXFILE && Mapped(old(S()), S(), g, inum, bn, addr, bits, old(logged), logged)
      ensures bn < MAXFILE && BmapFresh(old(S()), inum, bn) == 0 ==> updates == old(updates)
      ensures !ok && bn < MAXFILE ==> BmapFresh(old(S()), inum, bn) > 0 && forall k | 0 <= k < g.size :: Bit(bitmap, k)
      ensures bn < MAXFILE ==>
                if ok then TakesFor(old(S()), S(), g, inum, bn) else Spare(old(S()), g) < BmapFresh(old(S()), inum, bn)
    {
      hide Word, Owned, Content, SameContent, BitBlocks, Grown, LogGrowth, Leads, Spare, TakesFor;
      if bn < NDIRECT {
        ghost var s := S();
        ok, addr, bits := Pointer(inum, bn);
        if ok {
          TookDirect(s, S(), g, inum, bn);
        }
      } else if bn - NDIRECT < NINDIRECT {
        ok, addr, bits := Indirect(inum, bn - NDIRECT);
      } else {
        ok, addr, bits := false, 0, {};
      }
    }

    /** One turn of the loop of readi: the bytes of one block from o on, at most `left` of them. */
    method ReadStep(inum: nat, o: nat, left: nat) returns (m: nat, chunk: seq<byte>)
      requires Owned(S(), g) && Recorded() && IsInode(S(), inum) && HoleFree(S(), inum)
      requires 0 < left && o + left <= inode[inum].size
      modifies this`bitmap, this`block, this`inode, this`updates, this`logged, this`owner
      ensures S() == old(S()) && updates == old(updates) && logged == old(logged) && Recorded()
      ensures 0 < m <= left && chunk == File(S(), inum)[o..o + m]
    {
      hide Word, Owned, Content, Addr, SameContent, Grown, Leads;
      InRange(inode[inum].size, o);
      assert DataAddr(S(), inum, o / BSIZE) != 0;
      MappedBlock(S(), g, inum, o / BSIZE);
      var ok, addr;
      ghost var bits;
      ok, addr, bits := Bmap(inum, o / BSIZE);
      m := Min(left, BSIZE - o % BSIZE);
      ReadChunk(S(), inum, o, m);
      chunk := block[addr][o % BSIZE..o % BSIZE + m];
    }

    /** Bytes off..off+n of a file, clipped to its size; -1 for an offset beyond it.  Reading a file
        without holes never allocates, so it never panics. */
    method Readi(inum: nat, off: nat, n: nat) returns (r: int, data: seq<byte>)
      requires Owned(S(), g) && Recorded() && IsInode(S(), inum) && HoleFree(S(), inum)
      requires inode[inum].typ != T_DEV && off < SIZE_T && n < SIZE_T
      modifies this`bitmap, this`block, this`inode, this`updates, this`logged, this`owner
      ensures S() == old(S()) && updates == old(updates) && logged == old(logged) && Recorded()
      ensures IsInode(S(), inum) && inode[inum].size <= MAXFILE * BSIZE
      ensures var f := File(S(), inum);
              if off > |f| || off + n >= SIZE_T then r == -1 && data == []
              else r == |data| && data == f[off..Min(off + n, |f|)]
    {
      hide Word, Owned, Content, Addr, Leads;
      var size := inode[inum].size;
      if off > size || (off + n) % SIZE_T < off {
        return -1, [];
      }
      var n' := if off + n > size then size - off else n;
      data := [];
      var tot := 0;
      ghost var f := File(S(), inum);
      while tot < n'
        invariant 0 <= tot <= n' && S() == old(S()) && updates == old(updates) && logged == old(logged) && Recorded()
        invariant data == f[off..off + tot]
      {
        var m, chunk := ReadStep(inum, off + tot, n' - tot);
        assert f[off..off + tot] + f[off + tot..off + tot + m] == f[off..off + tot + m];
        data := data + chunk;
        tot := tot + m;
      }
      r := n';
    }

    /** One turn of the loop of writei: block (off+tot)/BSIZE receives its share of src. */
    method WriteStep(inum: nat, src: seq<byte>, off: nat, tot: nat, ghost s0: State) returns (ok: bool, m: nat, ghost bits: set<nat>)
      requires Owned(S(), g) && Recorded() && IsInode(s0, inum) && tot < |src| && off + |src| <= MAXFILE * BSIZE
      requires Spliced(s0, S(), inum, off, src, tot)
      modifies this`bitmap, this`block, this`inode, this`updates, this`logged, this`owner
      ensures Owned(S(), g) && Recorded()
      ensures ok ==>
                && m == Min(|src| - tot, BSIZE - (off + tot) % BSIZE)
                && Spliced(s0, S(), inum, off, src, tot + m)
                && Grown(old(S()), S(), inum) && BitBlocks(g, bits)
                && (off + tot) / BSIZE < MAXFILE
                && Touched(old(S()), S(), inum, (off + tot) / BSIZE, bits, old(logged), logged)
                && (BmapFresh(old(S()), inum, (off + tot) / BSIZE) == 0 ==> inode == old(inode))
      ensures !ok ==> BmapFresh(old(S()), inum, (off + tot) / BSIZE) > 0 && forall k | 0 <= k < g.size :: Bit(bitmap, k)
      ensures (off + tot) / BSIZE < MAXFILE
      ensures if ok then TakesFor(old(S()), S(), g, inum, (off + tot) / BSIZE)
              else Spare(old(S()), g) < BmapFresh(old(S()), inum, (off + tot) / BSIZE)
    {
      hide Word, Owned, Content, Addr, Bit, HoleFree, Spliced, SameContent, Leads, Spare, TakesFor;
      var o := off + tot;
      m := 0;
      ghost var s := S();
      SplicedInode(s0, s, inum, off, src, tot);
      BlockInFile(o);
      var addr;
      ok, addr, bits := Bmap(inum, o / BSIZE);
      if ok {
        ghost var s1 := S();
        MappedBlock(s1, g, inum, o / BSIZE);
        m := Min(|src| - tot, BSIZE - o % BSIZE);
        var x := Overlay(block[addr], src, tot, m, o % BSIZE);
        ghost var l1 := logged;
        Rewrite(addr, x);
        DataWrite(s1, g, inum, o / BSIZE, x);
        SplicedMore(s0, s, s1, S(), inum, off, src, tot, m, x);
        TookThenWrote(s, s1, S(), g, inum, o / BSIZE);
        TouchedMore(s, s1, S(), inum, o / BSIZE, addr, x, bits, old(logged), l1, logged);
      }
    }

    /** The loop of writei. */
    method WriteLoop(inum: nat, src: seq<byte>, off: nat) returns (ok: bool, ghost c: Cost)
      requires Owned(S(), g) && Recorded() && IsInode(S(), inum) && HoleFree(S(), inum)
      requires off <= inode[inum].size && off + |src| <= MAXFILE * BSIZE
      modifies this`bitmap, this`block, this`inode, this`updates, this`logged, this`owner
      ensures Owned(S(), g) && Recorded()
      ensures ok ==> Spliced(old(S()), S(), inum, off, src, |src|)
      ensures ok ==> Charged(g, old(logged), logged, old(S()), S(), inum, off, |src|, c)
      ensures off + |src| <= old(inode[inum]).size ==> inode == old(inode)
      ensures !ok ==> forall k | 0 <= k < g.size :: Bit(bitmap, k)
      ensures WriteEnd(off, |src|) <= MAXFILE
      ensures ok ==> TakesBlocks(old(S()), S(), g, inum, off / BSIZE, WriteEnd(off, |src|))
      ensures !ok ==> Lacking(old(S()), inum, off, |src|) > Spare(old(S()), g)
    {
      hide Word, Owned, Content, Addr, Bit, Spliced, HoleFree, Charged, Touched, Grown, Leads, Spare, TakesFor, TakesBlocks, LackingBetween;
      ok := true;
      c := Cost({}, {}, {}, 0, 0);
      ghost var s0, l0 := S(), logged;
      FirstBlock(s0, inum, off);
      SplicedNone(s0, inum, off, src);
      ChargedNone(g, l0, s0, inum, off);
      ghost var next, end := off / BSIZE, WriteEnd(off, |src|);
      WriteRange(off, |src|);
      TakesNone(s0, g, inum, next);
      var tot := 0;
      while tot < |src|
        invariant 0 <= tot <= |src| && Owned(S(), g) && IsInode(S(), inum) && Recorded()
        invariant Spliced(s0, S(), inum, off, src, tot) && Charged(g, l0, logged, s0, S(), inum, off, tot, c)
        invariant tot == 0 || tot == |src| || (off + tot) % BSIZE == 0
        invariant off + |src| <= s0.inode[inum].size ==> inode == s0.inode
        invariant next <= end && (tot == |src| ==> next == end) && (tot < |src| ==> next == (off + tot) / BSIZE)
        invariant TakesBlocks(s0, S(), g, inum, off / BSIZE, next)
      {
        ghost var s, l := S(), logged;
        SplicedInode(s0, s, inum, off, src, tot);
        if off + |src| <= s0.inode[inum].size {
          NothingFresh(s0, s, g, inum, off + tot);
        }
        var m;
        ghost var bits;
        WriteRangeStep(off, |src|, tot);
        WouldTake(s0, s, g, inum, off / BSIZE, next, end);
        ok, m, bits := WriteStep(inum, src, off, tot, s0);
        if !ok {
          return;
        }
        TakesNext(s0, s, S(), g, inum, off / BSIZE, next);
        next := next + 1;
        SplicedInode(s0, S(), inum, off, src, tot + m);
        SpanMore(off, tot, |src|, m);
        if tot == 0 {
          SplicedNothing(s0, s, inum, off, src);
        }
        c := ChargedMore(g, l0, l, logged, s0, s, S(), inum, off, tot, m, c, bits);
        tot := tot + m;
      }
    }

    /** Copy a modified in-memory inode to its inode block. */
    method Iupdate(inum: nat)
      requires inum < |inode| == |dinode| && Storable(inode[inum]) && Recorded()
      modifies this`dinode, this`updates, this`logged
      ensures dinode == old(dinode)[inum := inode[inum]] && logged == old(logged) + {InodeBlock(g, inum)} && Recorded()
    {
      hide Leads;
      LeadsOn(g, base, updates, Now(), logged, SetInode(inum, inode[inum]));
      dinode := dinode[inum := inode[inum]];
      updates := updates + [SetInode(inum, inode[inum])];
      logged := logged + {InodeBlock(g, inum)};
    }

    /** Writes src at offset off.  -1 for an offset beyond the size or a file that would grow too
        large; otherwise the file becomes its old bytes with src spliced in, no other file
        changes, and the inode on disk is current again.  Not ok is balloc's panic.  `touched` is
        what the call passed to log_write. */
    method Writei(inum: nat, src: seq<byte>, off: nat) returns (ok: bool, r: int, ghost touched: set<nat>)
      requires Valid() && IsInode(S(), inum) && inode[inum].typ != T_DEV
      requires off < SIZE_T && |src| < SIZE_T
      modifies this`bitmap, this`block, this`inode, this`dinode, this`updates, this`logged, this`owner
      ensures !ok ==> Owned(S(), g) && Recorded() && forall k | 0 <= k < g.size :: Bit(bitmap, k)
      ensures ok <==> off > old(inode[inum]).size || off + |src| > MAXFILE * BSIZE || Lacking(old(S()), inum, off, |src|) <= Spare(old(S()), g)
      ensures ok ==> Valid() && logged <= old(logged) + touched
      ensures ok && (off > old(inode[inum]).size || off + |src| > MAXFILE * BSIZE) ==>
                r == -1 && S() == old(S()) && updates == old(updates) && logged == old(logged)
      ensures ok && off <= old(inode[inum]).size && off + |src| <= MAXFILE * BSIZE ==>
                && r == |src| && WroteFile(old(S()), S(), inum, off, src) && Bounded(g, touched, off, |src|)
                && WriteEnd(off, |src|) <= MAXFILE && TakesBlocks(old(S()), S(), g, inum, off / BSIZE, WriteEnd(off, |src|))
    {
      hide Word, Owned, Content, Addr, Bit, Spliced, HoleFree, Charged, WroteFile, Bounded, Leads, Spare, TakesBlocks, LackingBetween;
      ok, r, touched := true, -1, {};
      assert HoleFree(S(), inum);
      SizeBound(S(), inum);
      var n := |src|;
      if off > inode[inum].size || (off + n) % SIZE_T < off {
        return;
      }
      if off + n > MAXFILE * BSIZE {
        return;
      }
      ghost var s, l := S(), logged;
      ghost var c;
      ok, c := WriteLoop(inum, src, off);
      if !ok {
        return;
      }
      ghost var s1 := S();
      SplicedInode(s, s1, inum, off, src, n);
      BoundCharge(g, l, logged, s, s1, inum, off, n, c);
      touched := c.data + c.indirect + c.bits;
      if n > 0 && off + n > inode[inum].size {
        inode := inode[inum := inode[inum].(size := off + n)];
        FitsDinode(s1, g, inum, off + n);
        Iupdate(inum);
        touched := touched + {InodeBlock(g, inum)};
      }
      Resized(s, s1, S(), g, inum, off, src);
      TakesResized(s, s1, g, inum, off / BSIZE, WriteEnd(off, n), inode[inum].size);
      TookAll(s, s1, g, inum, off / BSIZE, WriteEnd(off, n));
      assert S() == Resize(s1, inum, inode[inum].size);
      r := n;
    }

    /** bfree of the block at place k of a file that is being truncated: it cannot panic. */
    method FreePlace(inum: nat, k: nat, b: nat, ghost s: State, ghost was: Stage, ghost now: Stage)
      requires Owned(s, g) && IsSlot(s, Slot(inum, k)) && Passes(was, now, k) && !Gone(was, k) && b != 0 && b == Addr(s, Slot(inum, k))
      requires |bitmap| == |s.bitmap| && BitsWithout(bitmap, s, g, inum, was) && Recorded()
      modifies this`bitmap, this`updates, this`logged
      ensures |bitmap| == |s.bitmap| && BitsWithout(bitmap, s, g, inum, now) && Recorded()
      ensures logged <= old(logged) + MapBlocks(g)
    {
      hide Addr, Has, Drop, Leads;
      assert b < g.size by {
        assert SlotOk(s, g, Slot(inum, k));
      }
      FreeStep(bitmap, s, g, inum, was, now, k);
      var ok := Bfree(b);
    }

    /** itrunc's loop over the direct pointers. */
    method TruncDirect(inum: nat, ghost s: State)
      requires Owned(s, g) && S() == s && IsInode(s, inum) && Recorded()
      modifies this`bitmap, this`inode, this`updates, this`logged
      ensures |inode| == |s.inode| && inode == s.inode[inum := Cut(s.inode[inum], NDIRECT)]
      ensures |bitmap| == |s.bitmap| && BitsWithout(bitmap, s, g, inum, Direct(NDIRECT)) && Recorded()
      ensures logged <= old(logged) + MapBlocks(g)
    {
      hide Word, Addr, Bit, Owned, BitsWithout, Leads, MapBlocks;
      BitsAtStart(s, g, inum);
      PlaceAddr(s, g, inum, 0);
      assert Cut(s.inode[inum], 0) == s.inode[inum];
      var i := 0;
      while i < NDIRECT
        invariant 0 <= i <= NDIRECT && |inode| == |s.inode| && inode == s.inode[inum := Cut(s.inode[inum], i)]
        invariant |bitmap| == |s.bitmap| && BitsWithout(bitmap, s, g, inum, Direct(i)) && Recorded()
        invariant logged <= old(logged) + MapBlocks(g)
      {
        PlaceAddr(s, g, inum, i);
        var b := inode[inum].addrs[i];
        if b != 0 {
          FreePlace(inum, i, b, s, Direct(i), Direct(i + 1));
          inode := inode[inum := SetPointer(inode[inum], i, 0)];
        } else {
          SkipPlace(bitmap, s, g, inum, Direct(i), Direct(i + 1), i);
          assert Cut(s.inode[inum], i + 1).addrs == Cut(s.inode[inum], i).addrs;
        }
        assert SetPointer(Cut(s.inode[inum], i), i, 0) == Cut(s.inode[inum], i + 1);
        i := i + 1;
      }
    }

    /** itrunc's loop over the entries of the indirect block, and the indirect block itself. */
    method TruncIndirect(inum: nat, ghost s: State)
      requires Owned(s, g) && IsInode(s, inum) && block == s.block && inum < |inode|
      requires |inode[inum].addrs| == NDIRECT + 1 && inode[inum].addrs[NDIRECT] == s.inode[inum].addrs[NDIRECT] != 0
      requires |bitmap| == |s.bitmap| && BitsWithout(bitmap, s, g, inum, Direct(NDIRECT)) && Recorded()
      modifies this`bitmap, this`inode, this`updates, this`logged
      ensures |inode| == |old(inode)| && inode == old(inode)[inum := SetPointer(old(inode)[inum], NDIRECT, 0)]
      ensures |bitmap| == |s.bitmap| && BitsWithout(bitmap, s, g, inum, All) && Recorded()
      ensures logged <= old(logged) + MapBlocks(g)
    {
      hide Word, Addr, Bit, Owned, BitsWithout, Leads, MapBlocks;
      PlaceAddr(s, g, inum, NDIRECT);
      var a := inode[inum].addrs[NDIRECT];
      NoEntryYet(bitmap, s, g, inum);
      var j := 0;
      while j < NINDIRECT
        invariant 0 <= j <= NINDIRECT && inode == old(inode)
        invariant |bitmap| == |s.bitmap| && BitsWithout(bitmap, s, g, inum, Entries(j)) && Recorded()
        invariant logged <= old(logged) + MapBlocks(g)
      {
        PlaceAddr(s, g, inum, NDIRECT + 1 + j);
        var b := Word(block[a], j);
        if b != 0 {
          FreePlace(inum, NDIRECT + 1 + j, b, s, Entries(j), Entries(j + 1));
        } else {
          SkipPlace(bitmap, s, g, inum, Entries(j), Entries(j + 1), NDIRECT + 1 + j);
        }
        j := j + 1;
      }
      FreePlace(inum, NDIRECT, a, s, Entries(NINDIRECT), All);
      inode := inode[inum := SetPointer(inode[inum], NDIRECT, 0)];
    }

    /** Discards the contents of a file: its blocks become free, and no other file changes.  The
        panic of bfree on a free block is out of reach. */
    method Itrunc(inum: nat)
      requires Valid() && IsInode(S(), inum)
      modifies this`bitmap, this`inode, this`dinode, this`updates, this`logged, this`owner
      ensures Valid() && |inode| == |old(inode)| && inode == old(inode)[inum := Emptied(old(inode)[inum])]
      ensures forall b | 0 <= b < g.size :: Bit(bitmap, b) <==>
                Bit(old(bitmap), b) && !(b in old(owner) && old(owner)[b].inum == inum)
      ensures SameOthers(old(S()), S(), inum)
      ensures logged <= old(logged) + MapBlocks(g) + {InodeBlock(g, inum)}
    {
      hide Word, Addr, Bit, Owned, BitsWithout, SameOthers, HoleFree, Leads, MapBlocks;
      ghost var s := S();
      TruncDirect(inum, s);
      if inode[inum].addrs[NDIRECT] != 0 {
        TruncIndirect(inum, s);
      } else {
        NoEntries(bitmap, s, g, inum);
      }
      inode := inode[inum := SetSize(inode[inum], 0)];
      Iupdate(inum);
      owner := map b | b in owner && owner[b].inum != inum :: owner[b];
      assert inode[inum] == Emptied(s.inode[inum]);
      Truncated(s, S(), g, inum);
    }
  }

  // How many blocks an operation takes

  /** How many blocks are free. */
  ghost function Spare(s: State, g: Geometry): nat {
    if g.size <= 8 * |s.bitmap| then FreeBlocks(s.bitmap, g.size) else 0
  }

  /** An empty place took one block off the free ones; no other place changed. */
  ghost predicate Takes(s: State, s': State, g: Geometry, t: Slot)
    requires IsSlot(s, t)
  {
    Spare(s', g) + (if Addr(s, t) == 0 then 1 else 0) == Spare(s, g) && OnlyPlace(s, s', t) && IsSlot(s', t) && Addr(s', t) != 0
  }

  /** As many blocks were taken as block bn of a file lacked, and its other blocks stay as they are. */
  ghost predicate TakesFor(s: State, s': State, g: Geometry, inum: nat, bn: nat)
    requires IsInode(s, inum) && bn < MAXFILE
  {
    && IsInode(s', inum) && Spare(s', g) + BmapFresh(s, inum, bn) == Spare(s, g) && DataAddr(s', inum, bn) != 0
    && (forall c | 0 <= c < MAXFILE && c != bn :: DataAddr(s', inum, c) == DataAddr(s, inum, c))
    && (s'.inode[inum].addrs[NDIRECT] == 0 <==> bn < NDIRECT && s.inode[inum].addrs[NDIRECT] == 0)
  }

  lemma TookDirect(s: State, s': State, g: Geometry, inum: nat, bn: nat)
    requires IsInode(s, inum) && bn < NDIRECT && Takes(s, s', g, DataSlot(inum, bn))
    ensures TakesFor(s, s', g, inum, bn)
  {
    hide Spare;
    assert IsSlot(s, Slot(inum, NDIRECT)) && Addr(s', Slot(inum, NDIRECT)) == Addr(s, Slot(inum, NDIRECT));
    forall c | 0 <= c < MAXFILE && c != bn ensures DataAddr(s', inum, c) == DataAddr(s, inum, c) {
      assert IsSlot(s, DataSlot(inum, c)) && DataSlot(inum, c) != DataSlot(inum, bn);
    }
  }

  lemma TookPointer(s: State, s1: State, g: Geometry, inum: nat, j: nat)
    requires IsInode(s, inum) && j < NINDIRECT && Takes(s, s1, g, Slot(inum, NDIRECT))
    ensures IsSlot(s1, Slot(inum, NDIRECT + 1 + j)) && Addr(s1, Slot(inum, NDIRECT + 1 + j)) == Addr(s, Slot(inum, NDIRECT + 1 + j))
    ensures Spare(s1, g) + (if Addr(s, Slot(inum, NDIRECT)) == 0 then 1 else 0) == Spare(s, g)
  {
    hide Spare, Addr;
    assert IsSlot(s, Slot(inum, NDIRECT + 1 + j));
  }

  lemma TookBoth(s: State, s1: State, s2: State, g: Geometry, inum: nat, j: nat)
    requires IsInode(s, inum) && IsInode(s1, inum) && j < NINDIRECT && Takes(s, s1, g, Slot(inum, NDIRECT))
    requires Takes(s1, s2, g, Slot(inum, NDIRECT + 1 + j)) && Addr(s1, Slot(inum, NDIRECT)) != 0
    ensures TakesFor(s, s2, g, inum, NDIRECT + j)
  {
    hide Spare, Word;
    TookPointer(s, s1, g, inum, j);
    FreshParts(s, inum, j);
    assert IsSlot(s1, Slot(inum, NDIRECT)) && Addr(s2, Slot(inum, NDIRECT)) == Addr(s1, Slot(inum, NDIRECT));
    forall c | 0 <= c < MAXFILE && c != NDIRECT + j ensures DataAddr(s2, inum, c) == DataAddr(s, inum, c) {
      var t := DataSlot(inum, c);
      assert IsSlot(s, t) && t != Slot(inum, NDIRECT) && t != Slot(inum, NDIRECT + 1 + j);
    }
  }

  lemma TookThenWrote(s: State, s1: State, s2: State, g: Geometry, inum: nat, bn: nat)
    requires IsInode(s, inum) && bn < MAXFILE && TakesFor(s, s1, g, inum, bn) && s2.bitmap == s1.bitmap && s2.inode == s1.inode
    requires forall t | IsSlot(s1, t) :: Addr(s2, t) == Addr(s1, t)
    ensures TakesFor(s, s2, g, inum, bn)
  {
    hide FreeBlocks, Addr;
    forall c | 0 <= c < MAXFILE ensures DataAddr(s2, inum, c) == DataAddr(s1, inum, c) {
      assert IsSlot(s1, DataSlot(inum, c));
    }
  }

  /** How many of the blocks from..to of a file are not allocated. */
  ghost function MissingData(s: State, inum: nat, from: nat, to: nat): nat
    requires IsInode(s, inum) && to <= MAXFILE
  {
    if from >= to then 0 else MissingData(s, inum, from, to - 1) + if DataAddr(s, inum, to - 1) == 0 then 1 else 0
  }

  /** With the indirect block, if that is missing and they need it. */
  ghost function LackingBetween(s: State, inum: nat, from: nat, to: nat): nat
    requires IsInode(s, inum) && to <= MAXFILE
  {
    MissingData(s, inum, from, to) + if from < to && to > NDIRECT && s.inode[inum].addrs[NDIRECT] == 0 then 1 else 0
  }

  function WriteEnd(off: nat, n: nat): nat { if n == 0 then off / BSIZE else (off + n - 1) / BSIZE + 1 }

  /** The blocks that writing n bytes at an offset has to allocate. */
  ghost function Lacking(s: State, inum: nat, off: nat, n: nat): nat
    requires IsInode(s, inum) && off + n <= MAXFILE * BSIZE
  {
    LackingBetween(s, inum, off / BSIZE, WriteEnd(off, n))
  }

  lemma WriteRange(off: nat, n: nat)
    requires off + n <= MAXFILE * BSIZE
    ensures off / BSIZE <= WriteEnd(off, n) <= MAXFILE
  {
  }

  lemma WriteRangeStep(off: nat, n: nat, tot: nat)
    requires tot < n && off + n <= MAXFILE * BSIZE
    ensures
      var m := Min(n - tot, BSIZE - (off + tot) % BSIZE);
      && (off + tot) / BSIZE < WriteEnd(off, n) <= MAXFILE
      && (if tot + m == n then WriteEnd(off, n) else (off + tot + m) / BSIZE) == (off + tot) / BSIZE + 1
  {
    var o := off + tot;
    assert o == BSIZE * (o / BSIZE) + o % BSIZE;
  }

  /** Blocks from..to of a file took what they lacked, and its other blocks stay as they are. */
  ghost predicate TakesBlocks(s: State, s': State, g: Geometry, inum: nat, from: nat, to: nat)
    requires IsInode(s, inum) && to <= MAXFILE
  {
    && from <= to && IsInode(s', inum) && Spare(s', g) + LackingBetween(s, inum, from, to) == Spare(s, g)
    && (forall c | 0 <= c < MAXFILE && !(from <= c < to) :: DataAddr(s', inum, c) == DataAddr(s, inum, c))
    && (forall c | from <= c < to :: DataAddr(s', inum, c) != 0)
    && (s'.inode[inum].addrs[NDIRECT] == 0 <==> s.inode[inum].addrs[NDIRECT] == 0 && !(from < to && to > NDIRECT))
  }

  lemma TakesNone(s: State, g: Geometry, inum: nat, b: nat)
    requires IsInode(s, inum) && b <= MAXFILE
    ensures TakesBlocks(s, s, g, inum, b, b)
  {
    hide Addr, Spare;
  }

  lemma TakesNext(s: State, s1: State, s2: State, g: Geometry, inum: nat, from: nat, bn: nat)
    requires IsInode(s, inum) && bn < MAXFILE && TakesBlocks(s, s1, g, inum, from, bn) && TakesFor(s1, s2, g, inum, bn)
    ensures TakesBlocks(s, s2, g, inum, from, bn + 1)
  {
    hide Addr, Spare;
    LackingNext(s, s1, g, inum, from, bn);
  }

  lemma LackingNext(s: State, s1: State, g: Geometry, inum: nat, from: nat, bn: nat)
    requires IsInode(s, inum) && bn < MAXFILE && TakesBlocks(s, s1, g, inum, from, bn)
    ensures LackingBetween(s, inum, from, bn + 1) == LackingBetween(s, inum, from, bn) + BmapFresh(s1, inum, bn)
  {
    hide Addr, Spare;
  }

  /** When the next block lacks more than there is, so does the whole range. */
  lemma WouldTake(s: State, s1: State, g: Geometry, inum: nat, from: nat, bn: nat, end: nat)
    requires IsInode(s, inum) && bn < end <= MAXFILE && TakesBlocks(s, s1, g, inum, from, bn)
    ensures Spare(s1, g) < BmapFresh(s1, inum, bn) ==> Spare(s, g) < LackingBetween(s, inum, from, end)
  {
    hide Addr, Spare, LackingBetween;
    LackingNext(s, s1, g, inum, from, bn);
    LackingGrows(s, inum, from, bn + 1, end);
  }

  lemma {:induction false} LackingGrows(s: State, inum: nat, from: nat, a: nat, b: nat)
    requires IsInode(s, inum) && from <= a <= b <= MAXFILE
    ensures LackingBetween(s, inum, from, a) <= LackingBetween(s, inum, from, b)
    decreases b
  {
    hide Addr;
    if a < b {
      LackingGrows(s, inum, from, a, b - 1);
    }
  }

  lemma {:induction false} MissingSplit(s: State, s1: State, g: Geometry, inum: nat, from: nat, a: nat, b: nat, c: nat)
    requires IsInode(s, inum) && from <= a <= b <= c <= MAXFILE && TakesBlocks(s, s1, g, inum, from, b)
    ensures MissingData(s, inum, from, c) == MissingData(s, inum, from, b) + MissingData(s1, inum, a, c)
    decreases c
  {
    hide Addr, Spare;
    if b < c {
      MissingSplit(s, s1, g, inum, from, a, b, c - 1);
    } else if a < b {
      AllThere(s1, inum, a, b);
    }
  }

  lemma {:induction false} AllThere(s: State, inum: nat, from: nat, to: nat)
    requires IsInode(s, inum) && to <= MAXFILE && forall c | from <= c < to :: DataAddr(s, inum, c) != 0
    ensures MissingData(s, inum, from, to) == 0
  {
    hide Addr;
    if from < to {
      AllThere(s, inum, from, to - 1);
    }
  }

  /** What a longer range lacks is what its start lacks and what the rest lacks afterwards, from the last
      block of the start on. */
  lemma LackingSplit(s: State, s1: State, g: Geometry, inum: nat, from: nat, a: nat, b: nat, c: nat)
    requires IsInode(s, inum) && from <= a <= b <= c <= MAXFILE && TakesBlocks(s, s1, g, inum, from, b)
    ensures LackingBetween(s, inum, from, c) == LackingBetween(s, inum, from, b) + LackingBetween(s1, inum, a, c)
  {
    hide Addr, Spare, MissingData;
    MissingSplit(s, s1, g, inum, from, a, b, c);
  }

  lemma TakesJoin(s: State, s1: State, s2: State, g: Geometry, inum: nat, from: nat, a: nat, b: nat, c: nat)
    requires IsInode(s, inum) && from <= a <= b <= c <= MAXFILE && TakesBlocks(s, s1, g, inum, from, b)
    requires TakesBlocks(s1, s2, g, inum, a, c)
    ensures TakesBlocks(s, s2, g, inum, from, c)
  {
    hide Addr, Spare, LackingBetween;
    LackingSplit(s, s1, g, inum, from, a, b, c);
  }

  lemma TookAll(s: State, s1: State, g: Geometry, inum: nat, from: nat, to: nat)
    requires IsInode(s, inum) && to <= MAXFILE && TakesBlocks(s, s1, g, inum, from, to)
    ensures LackingBetween(s, inum, from, to) <= Spare(s, g)
  {
    hide Addr, Spare, LackingBetween;
  }

  lemma TakesResized(s: State, s1: State, g: Geometry, inum: nat, from: nat, to: nat, size: nat)
    requires IsInode(s, inum) && to <= MAXFILE && TakesBlocks(s, s1, g, inum, from, to)
    ensures TakesBlocks(s, Resize(s1, inum, size), g, inum, from, to)
  {
    hide Addr, FreeBlocks, LackingBetween;
    forall c | 0 <= c < MAXFILE ensures DataAddr(Resize(s1, inum, size), inum, c) == DataAddr(s1, inum, c) {
      ResizeAddr(s1, inum, size, DataSlot(inum, c));
    }
  }

  /** Pointers of an inode fit its fields on disk. */
  lemma FitsDinode(s: State, g: Geometry, inum: nat, size: nat)
    requires Owned(s, g) && IsInode(s, inum) && size <= MAXFILE * BSIZE
    ensures Storable(s.inode[inum].(size := size))
  {
    forall k | 0 <= k <= NDIRECT ensures s.inode[inum].addrs[k] < 0x1_0000_0000 {
      assert SlotOk(s, g, Slot(inum, k));
      assert Addr(s, Slot(inum, k)) == s.inode[inum].addrs[k];
    }
  }

  /** The blocks of the free map. */
  ghost function MapBlocks(g: Geometry): set<nat> { set b: nat | b < g.size :: BitBlock(g, b) }

  function MapSize(g: Geometry): nat { (g.size + BPB - 1) / BPB }

  /** itrunc logs the inode block and blocks of the free map only. */
  lemma TruncLogs(g: Geometry, logged: set<nat>, inum: nat)
    requires logged <= MapBlocks(g) + {InodeBlock(g, inum)}
    ensures |logged| <= MapSize(g) + 1
  {
    var row := Row(g.bmapstart, MapSize(g));
    forall x | x in MapBlocks(g) ensures x in row {
    }
    AddOne(row, InodeBlock(g, inum));
    var all := row + {InodeBlock(g, inum)};
    assert all == logged + (all - logged);
  }

  /** n numbers in a row. */
  ghost function Row(from: nat, n: nat): (r: set<nat>)
    ensures |r| == n && forall x: nat :: x in r <==> from <= x < from + n
  {
    if n == 0 then {} else Row(from, n - 1) + {from + n - 1}
  }

  /** Every other file is as it was. */
  ghost predicate SameOthers(s: State, s': State, inum: nat) {
    && |s'.inode| == |s.inode|
    && (forall j: nat | IsInode(s, j) && j != inum :: s'.inode[j] == s.inode[j])
    && (forall j: nat | IsInode(s, j) && j != inum && s.inode[j].size <= MAXFILE * BSIZE :: File(s', j) == File(s, j))
  }

  /** How far truncation got: i direct pointers, all of them and j entries, or everything. */
  datatype Stage = Direct(i: nat) | Entries(j: nat) | All

  predicate Gone(st: Stage, k: nat) {
    match st
    case Direct(i) => k < i
    case Entries(j) => k < NDIRECT + 1 + j && k != NDIRECT
    case All => true
  }

  ghost predicate Passes(was: Stage, now: Stage, k: nat) {
    forall l: nat | l < NSLOTS :: Gone(now, l) <==> Gone(was, l) || l == k
  }

  lemma PlaceAddr(s: State, g: Geometry, inum: nat, k: nat)
    requires Owned(s, g) && IsInode(s, inum) && k < NSLOTS
    ensures IsSlot(s, Slot(inum, k)) && g.size <= 8 * |s.bitmap|
    ensures k <= NDIRECT ==> Addr(s, Slot(inum, k)) == s.inode[inum].addrs[k]
    ensures s.inode[inum].addrs[NDIRECT] < |s.block|
    ensures k > NDIRECT && s.inode[inum].addrs[NDIRECT] != 0 ==>
              Addr(s, Slot(inum, k)) == Word(s.block[s.inode[inum].addrs[NDIRECT]], k - NDIRECT - 1)
    ensures k > NDIRECT && s.inode[inum].addrs[NDIRECT] == 0 ==> Addr(s, Slot(inum, k)) == 0
  {
    assert SlotOk(s, g, Slot(inum, NDIRECT));
  }

  /** Without an indirect block only the direct pointers owned blocks. */
  lemma NoEntries(bitmap: seq<bv8>, s: State, g: Geometry, inum: nat)
    requires Owned(s, g) && IsInode(s, inum) && s.inode[inum].addrs[NDIRECT] == 0
    requires |bitmap| == |s.bitmap| && BitsWithout(bitmap, s, g, inum, Direct(NDIRECT))
    ensures BitsWithout(bitmap, s, g, inum, All)
  {
    hide Bit;
    forall c | 0 <= c < g.size && c in s.owner && s.owner[c].inum == inum ensures Gone(Direct(NDIRECT), s.owner[c].k) {
      assert OwnerOk(s, c);
    }
  }

  lemma Truncated(s: State, s': State, g: Geometry, inum: nat)
    requires Owned(s, g) && AllHoleFree(s) && IsInode(s, inum) && |s'.inode| == |s.inode|
    requires s'.inode == s.inode[inum := Emptied(s.inode[inum])] && s'.block == s.block
    requires s'.owner == map b | b in s.owner && s.owner[b].inum != inum :: s.owner[b]
    requires |s'.bitmap| == |s.bitmap| && BitsWithout(s'.bitmap, s, g, inum, All)
    ensures Owned(s', g) && AllHoleFree(s') && SameOthers(s, s', inum)
    ensures forall b | 0 <= b < g.size :: Bit(s'.bitmap, b) <==> Bit(s.bitmap, b) && !(b in s.owner && s.owner[b].inum == inum)
  {
    TruncOwned(s, s', g, inum);
    forall j | IsInode(s', j) ensures HoleFree(s', j) {
      if j != inum {
        assert HoleFree(s, j);
        forall bn | 0 <= bn < MAXFILE ensures DataAddr(s', j, bn) == DataAddr(s, j, bn) {
          TruncAddr(s, s', inum, DataSlot(j, bn));
        }
      }
    }
    forall j: nat | IsInode(s, j) && j != inum && s.inode[j].size <= MAXFILE * BSIZE ensures File(s', j) == File(s, j) {
      forall i | 0 <= i < s.inode[j].size ensures File(s', j)[i] == File(s, j)[i] {
        TruncAddr(s, s', inum, DataSlot(j, i / BSIZE));
      }
    }
  }

  lemma TruncAddr(s: State, s': State, inum: nat, t: Slot)
    requires IsInode(s, inum) && IsSlot(s, t) && |s'.inode| == |s.inode| && s'.block == s.block
    requires s'.inode == s.inode[inum := Emptied(s.inode[inum])]
    ensures IsSlot(s', t) && Addr(s', t) == if t.inum == inum then 0 else Addr(s, t)
  {
  }

  lemma TruncOwned(s: State, s': State, g: Geometry, inum: nat)
    requires Owned(s, g) && IsInode(s, inum) && |s'.inode| == |s.inode|
    requires s'.inode == s.inode[inum := Emptied(s.inode[inum])] && s'.block == s.block
    requires s'.owner == map b | b in s.owner && s.owner[b].inum != inum :: s.owner[b]
    requires |s'.bitmap| == |s.bitmap| && BitsWithout(s'.bitmap, s, g, inum, All)
    ensures Owned(s', g)
    ensures forall b | 0 <= b < g.size :: Bit(s'.bitmap, b) <==> Bit(s.bitmap, b) && !(b in s.owner && s.owner[b].inum == inum)
  {
    hide Addr, Bit;
    forall t | IsSlot(s', t) ensures SlotOk(s', g, t) {
      TruncAddr(s, s', inum, t);
      assert SlotOk(s, g, t);
    }
    forall b | b in s'.owner ensures OwnerOk(s', b) {
      assert OwnerOk(s, b);
      TruncAddr(s, s', inum, s.owner[b]);
    }
    forall b | 0 <= b < g.size
      ensures Bit(s'.bitmap, b) <==> b < g.nmeta || b in s'.owner
      ensures Bit(s'.bitmap, b) <==> Bit(s.bitmap, b) && !(b in s.owner && s.owner[b].inum == inum)
    {
      if b in s.owner {
        assert OwnerOk(s, b) && SlotOk(s, g, s.owner[b]);
      }
    }
  }

  /** The free map without the blocks at the places passed so far of an inode. */
  ghost predicate BitsWithout(bitmap: seq<bv8>, s: State, g: Geometry, inum: nat, st: Stage)
    requires g.size <= 8 * |bitmap|
  {
    forall b | 0 <= b < g.size :: Bit(bitmap, b) <==>
      b < g.nmeta || (b in s.owner && !(s.owner[b].inum == inum && Gone(st, s.owner[b].k)))
  }

  lemma BitsAtStart(s: State, g: Geometry, inum: nat)
    requires Owned(s, g)
    ensures BitsWithout(s.bitmap, s, g, inum, Direct(0))
  {
  }

  lemma NoEntryYet(bitmap: seq<bv8>, s: State, g: Geometry, inum: nat)
    requires g.size <= 8 * |bitmap| && BitsWithout(bitmap, s, g, inum, Direct(NDIRECT))
    ensures BitsWithout(bitmap, s, g, inum, Entries(0))
  {
    hide Bit;
  }

  lemma FreeStep(bitmap: seq<bv8>, s: State, g: Geometry, inum: nat, was: Stage, now: Stage, k: nat)
    requires Owned(s, g) && IsSlot(s, Slot(inum, k)) && Passes(was, now, k) && !Gone(was, k) && Addr(s, Slot(inum, k)) != 0
    requires |bitmap| == |s.bitmap| && BitsWithout(bitmap, s, g, inum, was)
    ensures
      var b := Addr(s, Slot(inum, k));
      && b < 8 * |bitmap| && Bit(bitmap, b)
      && BitsWithout(ClearBit(bitmap, b), s, g, inum, now)
  {
    hide Addr, Bit, ClearBit;
    var b := Addr(s, Slot(inum, k));
    assert SlotOk(s, g, Slot(inum, k));
    forall c | 0 <= c < g.size ensures Bit(ClearBit(bitmap, b), c) <==>
        c < g.nmeta || (c in s.owner && !(s.owner[c].inum == inum && Gone(now, s.owner[c].k)))
    {
      BitAfter(bitmap, b, c);
      if c in s.owner {
        assert OwnerOk(s, c);
      }
    }
  }

  lemma SkipPlace(bitmap: seq<bv8>, s: State, g: Geometry, inum: nat, was: Stage, now: Stage, k: nat)
    requires Owned(s, g) && IsSlot(s, Slot(inum, k)) && Passes(was, now, k) && Addr(s, Slot(inum, k)) == 0
    requires |bitmap| == |s.bitmap| && BitsWithout(bitmap, s, g, inum, was)
    ensures BitsWithout(bitmap, s, g, inum, now)
  {
    hide Addr, Bit;
    forall c | 0 <= c < g.size && c in s.owner ensures s.owner[c] != Slot(inum, k) && s.owner[c].k < NSLOTS {
      assert OwnerOk(s, c);
    }
  }

  /** The first i direct pointers cleared. */
  function Cut(n: Inode, i: nat): Inode
    requires |n.addrs| == NDIRECT + 1 && i <= NDIRECT
  {
    n.(addrs := seq(NDIRECT + 1, k requires 0 <= k < NDIRECT + 1 => if k < i then 0 else n.addrs[k]))
  }

  function Emptied(n: Inode): Inode {
    n.(addrs := seq(NDIRECT + 1, _ => 0), size := 0)
  }

  /** Inside a file without holes there is nothing to allocate. */
  lemma NothingFresh(s0: State, s: State, g: Geometry, inum: nat, o: nat)
    requires IsInode(s0, inum) && HoleFree(s0, inum) && Grown(s0, s, inum) && Owned(s, g)
    requires o < s0.inode[inum].size
    ensures o / BSIZE < MAXFILE && BmapFresh(s, inum, o / BSIZE) == 0
  {
    InRange(s0.inode[inum].size, o);
    assert DataAddr(s0, inum, o / BSIZE) != 0 && IsSlot(s0, DataSlot(inum, o / BSIZE));
    MappedBlock(s, g, inum, o / BSIZE);
  }

  lemma SizeBound(s: State, inum: nat)
    requires IsInode(s, inum) && HoleFree(s, inum)
    ensures s.inode[inum].size <= MAXFILE * BSIZE
  {
  }

  /** The bytes f with src put at offset off. */
  function Splice(f: seq<byte>, off: nat, src: seq<byte>): (r: seq<byte>)
    requires off <= |f|
    ensures |r| == if off + |src| < |f| then |f| else off + |src|
    ensures forall i | 0 <= i < |r| :: r[i] == if off <= i < off + |src| then src[i - off] else f[i]
  {
    f[..off] + src + if off + |src| < |f| then f[off + |src|..] else []
  }

  ghost predicate WroteFile(s: State, s': State, inum: nat, off: nat, src: seq<byte>)
    requires IsInode(s, inum)
  {
    && |s'.inode| == |s.inode| && IsInode(s', inum)
    && s.inode[inum].size <= MAXFILE * BSIZE && s'.inode[inum].size <= MAXFILE * BSIZE && off <= s.inode[inum].size
    && File(s', inum) == Splice(File(s, inum), off, src)
    && s'.inode[inum] == s.inode[inum].(addrs := s'.inode[inum].addrs, size := s'.inode[inum].size)
    && (forall j: nat | IsInode(s, j) && j != inum :: s'.inode[j] == s.inode[j])
    && (forall j: nat | IsInode(s, j) && j != inum && s.inode[j].size <= MAXFILE * BSIZE :: File(s', j) == File(s, j))
  }

  /** Data blocks, the indirect block, the inode block, and a free-map block for each allocation:
      one for every data block but a first one that is partly in use, and one for the indirect
      block.  With a single free-map block the allocations share it. */
  ghost predicate Bounded(g: Geometry, touched: set<nat>, off: nat, n: nat) {
    && |touched| <= 2 * BlockSpan(off, n) + 3 - Partial(off)
    && (g.size <= BPB ==> |touched| <= BlockSpan(off, n) + 3)
    && (n == 0 ==> touched == {})
  }

  /** The accounts of writei: data blocks, the indirect block, free-map blocks, the number of turns
      and of allocations so far. */
  datatype Cost = Cost(data: set<nat>, indirect: set<nat>, bits: set<nat>, turns: nat, allocs: nat)

  function Partial(off: nat): nat { if off % BSIZE != 0 then 1 else 0 }

  ghost predicate Logged(g: Geometry, l0: set<nat>, l: set<nat>, ind: nat, c: Cost) {
    && l <= l0 + c.data + c.indirect + c.bits
    && |c.data| <= c.turns && |c.bits| <= c.allocs && BitBlocks(g, c.bits)
    && (c.indirect == {} || (c.indirect == {ind} && ind != 0))
    && (c.turns == 0 ==> c.indirect == {} && c.allocs == 0)
  }

  /** ind0 and ind are the indirect pointer before the write and now. */
  ghost predicate Counted(ind0: nat, ind: nat, off: nat, tot: nat, c: Cost) {
    && c.turns == BlockSpan(off, tot)
    && c.allocs + (if c.turns > 0 then Partial(off) else 0) <= c.turns + (if ind0 == 0 && ind != 0 then 1 else 0)
  }

  ghost predicate Charged(g: Geometry, l0: set<nat>, l: set<nat>, s0: State, s: State, inum: nat, off: nat, tot: nat, c: Cost)
    requires IsInode(s0, inum) && IsInode(s, inum)
  {
    && Logged(g, l0, l, s.inode[inum].addrs[NDIRECT], c)
    && Counted(s0.inode[inum].addrs[NDIRECT], s.inode[inum].addrs[NDIRECT], off, tot, c)
  }

  lemma ChargedNone(g: Geometry, l: set<nat>, s: State, inum: nat, off: nat)
    requires IsInode(s, inum)
    ensures Charged(g, l, l, s, s, inum, off, 0, Cost({}, {}, {}, 0, 0))
  {
  }

  lemma ChargedMore(g: Geometry, l0: set<nat>, l: set<nat>, l': set<nat>, s0: State, s: State, s': State,
                    inum: nat, off: nat, tot: nat, m: nat, c: Cost, bits: set<nat>) returns (c': Cost)
    requires IsInode(s0, inum) && IsInode(s, inum) && IsInode(s', inum) && Grown(s0, s, inum) && Grown(s, s', inum)
    requires Charged(g, l0, l, s0, s, inum, off, tot, c) && (off + tot) / BSIZE < MAXFILE && BitBlocks(g, bits)
    requires Touched(s, s', inum, (off + tot) / BSIZE, bits, l, l')
    requires BlockSpan(off, tot + m) == BlockSpan(off, tot) + 1
    requires tot == 0 && off % BSIZE != 0 ==> DataAddr(s, inum, off / BSIZE) != 0
    requires tot > 0 ==> BlockSpan(off, tot) > 0
    ensures Charged(g, l0, l', s0, s', inum, off, tot + m, c')
  {
    hide Addr, BlockSpan, Grown, BitBlocks, DataAddr, Logged, Counted, LogGrowth;
    var bn := (off + tot) / BSIZE;
    var x, ind := DataAddr(s', inum, bn), s'.inode[inum].addrs[NDIRECT];
    var ind1, ind0 := s.inode[inum].addrs[NDIRECT], s0.inode[inum].addrs[NDIRECT];
    GrownPointer(s, s', inum, NDIRECT);
    GrownPointer(s0, s, inum, NDIRECT);
    var allocs := BmapFresh(s, inum, bn);
    c' := Cost(c.data + {x}, if bn < NDIRECT then c.indirect else {ind}, c.bits + bits, c.turns + 1, c.allocs + allocs);
    LoggedMore(g, l0, l, l', ind1, ind, c, bn, x, bits, allocs, c');
    CountedMore(ind0, ind1, ind, off, tot, m, c, DataAddr(s, inum, bn), bn, allocs, c');
  }

  lemma LoggedMore(g: Geometry, l0: set<nat>, l: set<nat>, l': set<nat>, ind1: nat, ind: nat, c: Cost, bn: nat, x: nat,
                   bits: set<nat>, n: nat, c': Cost)
    requires Logged(g, l0, l, ind1, c) && BitBlocks(g, bits)
    requires ind1 != 0 ==> ind == ind1
    requires bn >= NDIRECT ==> ind != 0
    requires LogGrowth(l, l', {x} + if bn < NDIRECT then {} else {ind}, bits, n)
    requires c' == Cost(c.data + {x}, if bn < NDIRECT then c.indirect else {ind}, c.bits + bits, c.turns + 1, c.allocs + n)
    ensures Logged(g, l0, l', ind, c')
  {
    BitBlocksUnion(g, c.bits, bits);
    AddOne(c.data, x);
    LogMore(l0, l, l', c.data, c.indirect, c.bits, x, if bn < NDIRECT then {} else {ind}, bits, c'.indirect);
  }

  lemma CountedMore(ind0: nat, ind1: nat, ind: nat, off: nat, tot: nat, m: nat, c: Cost, was: nat, bn: nat, n: nat, c': Cost)
    requires Counted(ind0, ind1, off, tot, c) && BlockSpan(off, tot + m) == BlockSpan(off, tot) + 1
    requires ind0 != 0 ==> ind1 == ind0
    requires ind1 != 0 ==> ind == ind1
    requires bn >= NDIRECT ==> ind != 0
    requires n == (if was == 0 then 1 else 0) + (if bn >= NDIRECT && ind1 == 0 then 1 else 0)
    requires tot == 0 && off % BSIZE != 0 ==> was != 0
    requires tot > 0 ==> BlockSpan(off, tot) > 0
    requires c'.turns == c.turns + 1 && c'.allocs == c.allocs + n
    ensures Counted(ind0, ind, off, tot + m, c')
  {
  }

  lemma AddOne(a: set<nat>, x: nat)
    ensures |a + {x}| <= |a| + 1
  {
    if x in a {
      assert a + {x} == a;
    }
  }

  lemma LogMore(l0: set<nat>, l: set<nat>, l': set<nat>, data: set<nat>, indirect: set<nat>, bits: set<nat>,
                x: nat, via: set<nat>, more: set<nat>, indirect': set<nat>)
    requires l <= l0 + data + indirect + bits && l' <= l + ({x} + via) + more && indirect + via <= indirect'
    ensures l' <= l0 + (data + {x}) + indirect' + (bits + more)
  {
  }

  lemma BitBlocksUnion(g: Geometry, a: set<nat>, b: set<nat>)
    requires BitBlocks(g, a) && BitBlocks(g, b)
    ensures BitBlocks(g, a + b) && |a + b| <= |a| + |b|
  {
    assert |a + b| == |a| + |b| - |a * b|;
  }

  lemma SpanMore(off: nat, tot: nat, n: nat, m: nat)
    requires tot < n && (tot == 0 || (off + tot) % BSIZE == 0) && m == Min(n - tot, BSIZE - (off + tot) % BSIZE)
    ensures m > 0 && BlockSpan(off, tot + m) == BlockSpan(off, tot) + 1
    ensures tot > 0 ==> BlockSpan(off, tot) > 0
    ensures tot + m == n || (off + tot + m) % BSIZE == 0
  {
    var o := off + tot;
    assert o == BSIZE * (o / BSIZE) + o % BSIZE;
    SameBlock(o, m, o + m - 1);
    if tot > 0 {
      assert (o - 1) / BSIZE == o / BSIZE - 1;
    }
  }

  lemma FirstBlock(s: State, inum: nat, off: nat)
    requires IsInode(s, inum) && HoleFree(s, inum) && off <= s.inode[inum].size
    ensures off % BSIZE != 0 ==> off / BSIZE < MAXFILE && DataAddr(s, inum, off / BSIZE) != 0
  {
    assert off == BSIZE * (off / BSIZE) + off % BSIZE;
  }

  lemma SplicedNone(s: State, inum: nat, off: nat, src: seq<byte>)
    requires IsInode(s, inum) && off + |src| <= MAXFILE * BSIZE
    requires off % BSIZE != 0 ==> off / BSIZE < MAXFILE && DataAddr(s, inum, off / BSIZE) != 0
    ensures Spliced(s, s, inum, off, src, 0)
  {
    assert off == BSIZE * (off / BSIZE) + off % BSIZE;
    hide Content, Addr;
  }

  lemma SplicedNothing(s0: State, s: State, inum: nat, off: nat, src: seq<byte>)
    requires IsInode(s0, inum) && Spliced(s0, s, inum, off, src, 0)
    ensures IsInode(s, inum)
    ensures off % BSIZE != 0 && off / BSIZE < MAXFILE ==> DataAddr(s, inum, off / BSIZE) != 0
  {
    hide Content, Addr;
    assert off == BSIZE * (off / BSIZE) + off % BSIZE;
  }

  /** Number of blocks that n bytes from off on lie in. */
  function BlockSpan(off: nat, n: nat): nat {
    if n == 0 then 0 else (off + n - 1) / BSIZE - off / BSIZE + 1
  }

  lemma BlockInFile(o: nat)
    requires o < MAXFILE * BSIZE
    ensures o / BSIZE < MAXFILE
  {
  }

  ghost predicate SplicedAt(s0: State, s: State, inum: nat, off: nat, src: seq<byte>, tot: nat, j: nat, i: nat)
    requires IsInode(s0, j) && i < MAXFILE * BSIZE && tot <= |src|
  {
    && IsInode(s, j)
    && Content(s, j, i) == if j == inum && off <= i < off + tot then src[i - off] else Content(s0, j, i)
  }

  /** The first tot bytes of src are in the file from off on; all other bytes of all files are as
      they were, and the blocks that were written are allocated. */
  ghost predicate Spliced(s0: State, s: State, inum: nat, off: nat, src: seq<byte>, tot: nat)
    requires IsInode(s0, inum)
  {
    && tot <= |src| && off + |src| <= MAXFILE * BSIZE && Grown(s0, s, inum)
    && (forall j, i | IsInode(s0, j) && 0 <= i < MAXFILE * BSIZE :: SplicedAt(s0, s, inum, off, src, tot, j, i))
    && (forall bn | off / BSIZE <= bn < MAXFILE && bn * BSIZE < off + tot :: DataAddr(s, inum, bn) != 0)
  }

  lemma SplicedInode(s0: State, s: State, inum: nat, off: nat, src: seq<byte>, tot: nat)
    requires IsInode(s0, inum) && Spliced(s0, s, inum, off, src, tot)
    ensures IsInode(s, inum) && Grown(s0, s, inum)
  {
  }

  /** src[tot..tot+m] put into a block at offset r. */
  function Overlay(b: Block, src: seq<byte>, tot: nat, m: nat, r: nat): (x: Block)
    requires tot + m <= |src| && r + m <= BSIZE
    ensures forall k | 0 <= k < BSIZE :: x[k] == if r <= k < r + m then src[tot + k - r] else b[k]
  {
    b[..r] + src[tot..tot + m] + b[r + m..]
  }

  lemma SplicedByte(s0: State, s: State, s1: State, s2: State, inum: nat, off: nat, src: seq<byte>,
                    tot: nat, m: nat, x: Block, j: nat, i: nat)
    requires IsInode(s0, inum) && IsInode(s0, j) && IsInode(s, j) && IsInode(s1, j) && IsInode(s2, j) && i < MAXFILE * BSIZE
    requires tot < |src| && m == Min(|src| - tot, BSIZE - (off + tot) % BSIZE)
    requires j == inum && i / BSIZE == (off + tot) / BSIZE ==>
               && 0 < DataAddr(s1, j, i / BSIZE) < |s1.block|
               && x == Overlay(s1.block[DataAddr(s1, j, i / BSIZE)], src, tot, m, (off + tot) % BSIZE)
    requires Content(s, j, i) == if j == inum && off <= i < off + tot then src[i - off] else Content(s0, j, i)
    requires Content(s1, j, i) == Content(s, j, i)
    requires Content(s2, j, i) == if j == inum && i / BSIZE == (off + tot) / BSIZE then x[i % BSIZE] else Content(s1, j, i)
    ensures Content(s2, j, i) == if j == inum && off <= i < off + tot + m then src[i - off] else Content(s0, j, i)
  {
    hide Addr, Overlay;
    var o := off + tot;
    assert i == BSIZE * (i / BSIZE) + i % BSIZE && o == BSIZE * (o / BSIZE) + o % BSIZE;
    if j == inum && o <= i < o + m {
      SameBlock(o, m, i);
      assert x[i % BSIZE] == src[tot + i % BSIZE - o % BSIZE];
    } else if j == inum && i / BSIZE == o / BSIZE {
      assert !(o % BSIZE <= i % BSIZE < o % BSIZE + m);
      assert x[i % BSIZE] == s1.block[DataAddr(s1, j, i / BSIZE)][i % BSIZE];
      assert !(o <= i < o + m);
    }
  }

  lemma SplicedMore(s0: State, s: State, s1: State, s2: State, inum: nat, off: nat, src: seq<byte>, tot: nat, m: nat, x: Block)
    requires IsInode(s0, inum) && Spliced(s0, s, inum, off, src, tot) && Grown(s, s1, inum) && SameContent(s, s1)
    requires tot < |src| && m == Min(|src| - tot, BSIZE - (off + tot) % BSIZE)
    requires (off + tot) / BSIZE < MAXFILE && 0 < DataAddr(s1, inum, (off + tot) / BSIZE) < |s1.block|
    requires x == Overlay(s1.block[DataAddr(s1, inum, (off + tot) / BSIZE)], src, tot, m, (off + tot) % BSIZE)
    requires s2 == WithBlock(s1, DataAddr(s1, inum, (off + tot) / BSIZE), x)
    requires forall t | IsSlot(s1, t) :: Addr(s2, t) == Addr(s1, t)
    requires forall j, i | IsInode(s1, j) && 0 <= i < MAXFILE * BSIZE ::
               Content(s2, j, i) == if j == inum && i / BSIZE == (off + tot) / BSIZE then x[i % BSIZE] else Content(s1, j, i)
    ensures Spliced(s0, s2, inum, off, src, tot + m) && Grown(s, s2, inum)
  {
    hide Addr, Overlay, Content;
    var done := tot + m;
    forall j, i | IsInode(s0, j) && 0 <= i < MAXFILE * BSIZE
      ensures SplicedAt(s0, s2, inum, off, src, done, j, i)
    {
      assert SplicedAt(s0, s, inum, off, src, tot, j, i);
      assert IsInode(s, j) && IsInode(s1, j);
      SplicedByte(s0, s, s1, s2, inum, off, src, tot, m, x, j, i);
    }
    assert Grown(s1, s2, inum);
    GrownTwice(s, s1, s2, inum);
    GrownTwice(s0, s, s2, inum);
    forall bn | off / BSIZE <= bn < MAXFILE && bn * BSIZE < off + tot + m ensures DataAddr(s2, inum, bn) != 0 {
      if bn * BSIZE < off + tot {
        assert DataAddr(s, inum, bn) != 0 && IsSlot(s, DataSlot(inum, bn));
      } else {
        assert bn == (off + tot) / BSIZE;
        assert IsSlot(s1, DataSlot(inum, bn));
      }
    }
  }

  /** What one block written may add to the log. */
  ghost predicate Touched(s: State, s': State, inum: nat, bn: nat, bits: set<nat>, l: set<nat>, l': set<nat>)
    requires IsInode(s, inum) && IsInode(s', inum) && bn < MAXFILE
  {
    && (bn >= NDIRECT ==> s'.inode[inum].addrs[NDIRECT] != 0)
    && LogGrowth(l, l', {DataAddr(s', inum, bn)} + if bn < NDIRECT then {} else {s'.inode[inum].addrs[NDIRECT]},
                 bits, BmapFresh(s, inum, bn))
  }

  lemma TouchedMore(s: State, s1: State, s2: State, inum: nat, bn: nat, addr: nat, x: Block, bits: set<nat>,
                    l: set<nat>, l1: set<nat>, l': set<nat>)
    requires IsInode(s, inum) && IsInode(s1, inum) && bn < MAXFILE && addr < |s1.block|
    requires addr == DataAddr(s1, inum, bn) != 0 && s2 == WithBlock(s1, addr, x)
    requires forall t | IsSlot(s1, t) :: Addr(s2, t) == Addr(s1, t)
    requires l' == l1 + {addr}
    requires LogGrowth(l, l1, if bn < NDIRECT then {addr} else {addr, s1.inode[inum].addrs[NDIRECT]}, bits, BmapFresh(s, inum, bn))
    ensures Touched(s, s2, inum, bn, bits, l, l')
  {
    assert IsSlot(s1, DataSlot(inum, bn));
  }

  lemma MappedBlock(s: State, g: Geometry, inum: nat, bn: nat)
    requires Owned(s, g) && IsInode(s, inum) && bn < MAXFILE
    ensures 0 < g.nmeta && (DataAddr(s, inum, bn) != 0 ==> g.nmeta <= DataAddr(s, inum, bn) < |s.block|)
    ensures DataAddr(s, inum, bn) != 0 ==> BmapFresh(s, inum, bn) == 0
  {
    assert SlotOk(s, g, DataSlot(inum, bn));
  }

  lemma FreshParts(s: State, inum: nat, j: nat)
    requires IsInode(s, inum) && j < NINDIRECT
    ensures BmapFresh(s, inum, NDIRECT + j) == (if Addr(s, Slot(inum, NDIRECT + 1 + j)) == 0 then 1 else 0)
                                             + (if Addr(s, Slot(inum, NDIRECT)) == 0 then 1 else 0)
  {
  }

  const SIZE_T: nat := 0x1_0000_0000_0000_0000

  function Min(a: int, b: int): int { if a < b then a else b }

  lemma InRange(size: nat, o: nat)
    requires o < size <= MAXFILE * BSIZE
    ensures o / BSIZE < MAXFILE && (o / BSIZE) * BSIZE < size
  {
  }

  lemma SameBlock(o: nat, m: nat, i: nat)
    requires o <= i < o + m && m <= BSIZE - o % BSIZE
    ensures i / BSIZE == o / BSIZE && i % BSIZE == o % BSIZE + (i - o)
  {
  }

  /** A run of bytes within one block. */
  lemma ReadChunk(s: State, inum: nat, o: nat, m: nat)
    requires IsInode(s, inum) && o + m <= s.inode[inum].size <= MAXFILE * BSIZE && m <= BSIZE - o % BSIZE
    requires o / BSIZE < MAXFILE && 0 < DataAddr(s, inum, o / BSIZE) < |s.block|
    ensures s.block[DataAddr(s, inum, o / BSIZE)][o % BSIZE..o % BSIZE + m] == File(s, inum)[o..o + m]
  {
    hide Word, Addr;
    var chunk, f := s.block[DataAddr(s, inum, o / BSIZE)][o % BSIZE..o % BSIZE + m], File(s, inum);
    forall i | 0 <= i < m ensures chunk[i] == f[o..o + m][i] {
      SameBlock(o, m, o + i);
    }
  }

  lemma GrowthTwice(g: Geometry, l: set<nat>, l1: set<nat>, l2: set<nat>, named: set<nat>, named1: set<nat>,
                    bits: set<nat>, bits1: set<nat>, n: nat, n1: nat)
    requires LogGrowth(l, l1, named, bits, n) && LogGrowth(l1, l2, named1, bits1, n1) && named <= named1
    requires BitBlocks(g, bits) && BitBlocks(g, bits1)
    ensures LogGrowth(l, l2, named1, bits + bits1, n + n1) && BitBlocks(g, bits + bits1)
  {
    assert |bits + bits1| == |bits| + |bits1| - |bits * bits1|;
  }

  /** Block bn of a file is mapped to addr: nothing that a reader sees changed, and the log grew by
      that block, the indirect block that names it, and the free-map blocks of the allocations. */
  ghost predicate Mapped(s: State, s': State, g: Geometry, inum: nat, bn: nat, addr: nat, bits: set<nat>, l: set<nat>, l': set<nat>)
    requires IsInode(s, inum) && bn < MAXFILE
  {
    && Grown(s, s', inum) && SameContent(s, s')
    && addr == DataAddr(s', inum, bn) && g.nmeta <= addr < g.size && BitBlocks(g, bits)
    && (BmapFresh(s, inum, bn) == 0 ==> s' == s && l' == l)
    && LogGrowth(l, l', if bn < NDIRECT then {addr} else {addr, s'.inode[inum].addrs[NDIRECT]}, bits, BmapFresh(s, inum, bn))
  }

  /** Place t names block addr; an empty place was filled, and nothing that a reader sees changed. */
  ghost predicate Named(s: State, s': State, g: Geometry, t: Slot, addr: nat, bits: set<nat>, named: set<nat>, l: set<nat>, l': set<nat>)
    requires IsSlot(s, t)
  {
    && Grown(s, s', t.inum) && SameContent(s, s')
    && addr == Addr(s', t) && g.nmeta <= addr < g.size && BitBlocks(g, bits)
    && LogGrowth(l, l', named, bits, if Addr(s, t) == 0 then 1 else 0)
    && (Addr(s, t) != 0 ==> s' == s && l' == l)
  }

  lemma MetaFirst(s: State, g: Geometry)
    requires Owned(s, g)
    ensures 0 < g.nmeta
  {
  }

  lemma NamedAlready(s: State, g: Geometry, t: Slot, named: set<nat>, l: set<nat>)
    requires Owned(s, g) && IsSlot(s, t) && Addr(s, t) != 0
    ensures Named(s, s, g, t, Addr(s, t), {}, named, l, l) && Takes(s, s, g, t)
  {
    hide Word, Spare;
    assert SlotOk(s, g, t);
  }

  lemma NamedInode(s: State, s': State, g: Geometry, t: Slot, addr: nat, bits: set<nat>, named: set<nat>, l: set<nat>, l': set<nat>)
    requires IsSlot(s, t) && Named(s, s', g, t, addr, bits, named, l, l') && Owned(s, g)
    ensures IsInode(s', t.inum) && IsSlot(s', t) && Addr(s', t) == addr != 0
    ensures forall k | 0 <= k < NSLOTS && Addr(s', Slot(t.inum, k)) == 0 :: Addr(s, Slot(t.inum, k)) == 0
  {
    forall k | 0 <= k < NSLOTS && Addr(s', Slot(t.inum, k)) == 0 ensures Addr(s, Slot(t.inum, k)) == 0 {
      GrownPointer(s, s', t.inum, k);
    }
  }

  lemma NamedTwice(s: State, s1: State, s2: State, g: Geometry, inum: nat, j: nat, a: nat, addr: nat,
                   bits: set<nat>, more: set<nat>, l: set<nat>, l1: set<nat>, l2: set<nat>)
    requires IsInode(s, inum) && j < NINDIRECT && Named(s, s1, g, Slot(inum, NDIRECT), a, bits, {a}, l, l1)
    requires IsInode(s1, inum) && Addr(s1, Slot(inum, NDIRECT)) == a != 0
    requires Named(s1, s2, g, Slot(inum, NDIRECT + 1 + j), addr, more, {addr, a}, l1, l2)
    ensures Mapped(s, s2, g, inum, NDIRECT + j, addr, bits + more, l, l2)
  {
    hide Word, BitBlocks, Content, LogGrowth;
    GrownTwice(s, s1, s2, inum);
    SameContentTwice(s, s1, s2);
    GrownPointer(s, s1, inum, NDIRECT + 1 + j);
    GrownPointer(s1, s2, inum, NDIRECT);
    var n, n1 := if Addr(s, Slot(inum, NDIRECT)) == 0 then 1 else 0, if Addr(s1, Slot(inum, NDIRECT + 1 + j)) == 0 then 1 else 0;
    GrowthTwice(g, l, l1, l2, {a}, {addr, a}, bits, more, n, n1);
    GrowthWeaken(l, l2, {addr, a}, bits + more, n + n1, BmapFresh(s, inum, NDIRECT + j));
  }

  lemma GrowthWeaken(l: set<nat>, l': set<nat>, named: set<nat>, bits: set<nat>, n: nat, n': nat)
    requires LogGrowth(l, l', named, bits, n) && n <= n'
    ensures LogGrowth(l, l', named, bits, n')
  {
  }

  /** How many blocks bmap has to allocate. */
  ghost function BmapFresh(s: State, inum: nat, bn: nat): nat
    requires IsInode(s, inum) && bn < MAXFILE
  {
    (if DataAddr(s, inum, bn) == 0 then 1 else 0) + (if bn >= NDIRECT && s.inode[inum].addrs[NDIRECT] == 0 then 1 else 0)
  }

  lemma OneBitBlock(g: Geometry, bits: set<nat>)
    requires BitBlocks(g, bits) && g.size <= BPB
    ensures |bits| <= 1
  {
    assert bits <= {g.bmapstart};
    if bits == {} {
    } else {
      assert bits == {g.bmapstart};
    }
  }

  /** The charge of a write, with the inode block, is within the bound. */
  lemma BoundCharge(g: Geometry, l0: set<nat>, l: set<nat>, s0: State, s: State, inum: nat, off: nat, n: nat, c: Cost)
    requires IsInode(s0, inum) && IsInode(s, inum) && Charged(g, l0, l, s0, s, inum, off, n, c)
    ensures l <= l0 + (c.data + c.indirect + c.bits)
    ensures forall b: nat :: n > 0 ==> Bounded(g, c.data + c.indirect + c.bits + {b}, off, n)
    ensures Bounded(g, c.data + c.indirect + c.bits, off, n)
  {
    var all := c.data + c.indirect + c.bits;
    assert |all| <= |c.data| + |c.indirect| + |c.bits|;
    if g.size <= BPB {
      OneBitBlock(g, c.bits);
    }
    forall b: nat | n > 0 ensures Bounded(g, all + {b}, off, n) {
      AddOne(all, b);
    }
  }

  lemma Resized(s: State, s1: State, s2: State, g: Geometry, inum: nat, off: nat, src: seq<byte>)
    requires Owned(s1, g) && IsInode(s, inum) && AllHoleFree(s) && off <= s.inode[inum].size
    requires Spliced(s, s1, inum, off, src, |src|) && IsInode(s1, inum)
    requires
      var size := if |src| > 0 && off + |src| > s1.inode[inum].size then off + |src| else s1.inode[inum].size;
      s2 == Resize(s1, inum, size)
    ensures Owned(s2, g) && AllHoleFree(s2) && WroteFile(s, s2, inum, off, src)
  {
    hide Owned, Content, Addr, Spliced, WroteFile;
    SplicedInode(s, s1, inum, off, src, |src|);
    ResizeOwned(s1, g, inum, s2.inode[inum].size);
    forall j | IsInode(s2, j) ensures HoleFree(s2, j) {
      assert IsInode(s, j) && HoleFree(s, j);
      ResizedHoleFree(s, s1, s2, inum, off, src, j);
    }
    ResizedFiles(s, s1, s2, inum, off, src);
  }

  function Resize(s: State, inum: nat, size: nat): State
    requires IsInode(s, inum)
  {
    State(s.bitmap, s.inode[inum := SetSize(s.inode[inum], size)], s.block, s.owner)
  }

  function SetSize(i: Inode, size: nat): Inode { i.(size := size) }

  lemma ResizeAddr(s: State, inum: nat, size: nat, t: Slot)
    requires IsInode(s, inum)
    ensures IsSlot(Resize(s, inum, size), t) <==> IsSlot(s, t)
    ensures IsSlot(s, t) ==> Addr(Resize(s, inum, size), t) == Addr(s, t)
  {
  }

  /** Sizes have no part in who owns what. */
  lemma ResizeOwned(s: State, g: Geometry, inum: nat, size: nat)
    requires Owned(s, g) && IsInode(s, inum)
    ensures Owned(Resize(s, inum, size), g)
  {
    hide Addr, Bit;
    var s' := Resize(s, inum, size);
    forall t | IsSlot(s', t) ensures SlotOk(s', g, t) {
      ResizeAddr(s, inum, size, t);
      assert SlotOk(s, g, t);
    }
    forall b | b in s'.owner ensures OwnerOk(s', b) {
      assert OwnerOk(s, b);
      ResizeAddr(s, inum, size, s.owner[b]);
    }
    assert forall b | 0 <= b < g.size :: Bit(s'.bitmap, b) == Bit(s.bitmap, b);
  }

  lemma ResizedHoleFree(s: State, s1: State, s2: State, inum: nat, off: nat, src: seq<byte>, j: nat)
    requires IsInode(s, inum) && IsInode(s, j) && HoleFree(s, j) && off <= s.inode[inum].size
    requires Spliced(s, s1, inum, off, src, |src|) && IsInode(s1, inum) && IsInode(s1, j)
    requires IsInode(s2, inum) && IsInode(s2, j) && s2 == Resize(s1, inum, s2.inode[inum].size)
    requires s2.inode[inum].size == s1.inode[inum].size || s2.inode[inum].size == off + |src|
    ensures HoleFree(s2, j)
  {
    hide Content, Addr;
    forall bn | 0 <= bn < MAXFILE && bn * BSIZE < s2.inode[j].size ensures DataAddr(s2, j, bn) != 0 {
      ResizeAddr(s1, inum, s2.inode[inum].size, DataSlot(j, bn));
      assert DataAddr(s1, j, bn) == DataAddr(s2, j, bn);
      if bn * BSIZE < s.inode[j].size {
        assert DataAddr(s, j, bn) != 0 && IsSlot(s, DataSlot(j, bn));
      } else {
        assert off == BSIZE * (off / BSIZE) + off % BSIZE;
      }
    }
  }

  lemma ResizedFiles(s: State, s1: State, s2: State, inum: nat, off: nat, src: seq<byte>)
    requires IsInode(s, inum) && off <= s.inode[inum].size <= MAXFILE * BSIZE
    requires Spliced(s, s1, inum, off, src, |src|) && IsInode(s1, inum)
    requires
      var size := if |src| > 0 && off + |src| > s1.inode[inum].size then off + |src| else s1.inode[inum].size;
      s2 == Resize(s1, inum, size)
    ensures WroteFile(s, s2, inum, off, src)
  {
    hide Addr;
    forall j, i | IsInode(s, j) && 0 <= i < MAXFILE * BSIZE
      ensures SplicedAt(s, s2, inum, off, src, |src|, j, i)
    {
      assert SplicedAt(s, s1, inum, off, src, |src|, j, i);
      ResizeAddr(s1, inum, s2.inode[inum].size, DataSlot(j, i / BSIZE));
    }
    hide Content;
    forall i | 0 <= i < s2.inode[inum].size ensures File(s2, inum)[i] == Splice(File(s, inum), off, src)[i] {
      assert SplicedAt(s, s2, inum, off, src, |src|, inum, i);
    }
    forall j: nat | IsInode(s, j) && j != inum && s.inode[j].size <= MAXFILE * BSIZE ensures File(s2, j) == File(s, j) {
      forall i | 0 <= i < s.inode[j].size ensures File(s2, j)[i] == File(s, j)[i] {
        assert SplicedAt(s, s2, inum, off, src, |src|, j, i);
      }
    }
  }

  // Other fields of an inode

  /** x is an inode with the same size and blocks. */
  predicate SameFile(s: State, n: nat, x: Inode) { IsInode(s, n) && x.size == s.inode[n].size && x.addrs == s.inode[n].addrs }

  function Relabel(s: State, n: nat, x: Inode): State
    requires SameFile(s, n, x)
  {
    State(s.bitmap, s.inode[n := x], s.block, s.owner)
  }

  lemma RelabelAddr(s: State, n: nat, x: Inode, t: Slot)
    requires SameFile(s, n, x)
    ensures IsSlot(Relabel(s, n, x), t) <==> IsSlot(s, t)
    ensures IsSlot(s, t) ==> Addr(Relabel(s, n, x), t) == Addr(s, t)
  {
  }

  lemma RelabelFile(s: State, n: nat, x: Inode, j: nat)
    requires SameFile(s, n, x) && IsInode(s, j) && s.inode[j].size <= MAXFILE * BSIZE
    ensures IsInode(Relabel(s, n, x), j) && Relabel(s, n, x).inode[j].size == s.inode[j].size && File(Relabel(s, n, x), j) == File(s, j)
  {
    hide Addr, Content;
    forall i | 0 <= i < s.inode[j].size ensures Content(Relabel(s, n, x), j, i) == Content(s, j, i) {
      RelabelContent(s, n, x, j, i);
    }
  }

  lemma RelabelContent(s: State, n: nat, x: Inode, j: nat, i: nat)
    requires SameFile(s, n, x) && IsInode(s, j) && i < MAXFILE * BSIZE
    ensures Content(Relabel(s, n, x), j, i) == Content(s, j, i)
  {
    hide Addr;
    RelabelAddr(s, n, x, DataSlot(j, i / BSIZE));
  }

  lemma RelabelOwned(s: State, g: Geometry, n: nat, x: Inode)
    requires Owned(s, g) && SameFile(s, n, x)
    ensures Owned(Relabel(s, n, x), g)
  {
    hide Addr, Bit;
    var s' := Relabel(s, n, x);
    forall t | IsSlot(s', t) ensures SlotOk(s', g, t) {
      RelabelAddr(s, n, x, t);
      assert SlotOk(s, g, t);
    }
    forall b | b in s'.owner ensures OwnerOk(s', b) {
      assert OwnerOk(s, b);
      RelabelAddr(s, n, x, s.owner[b]);
    }
  }

  lemma RelabelHoleFree(s: State, n: nat, x: Inode, j: nat)
    requires SameFile(s, n, x) && IsInode(s, j) && HoleFree(s, j)
    ensures IsInode(Relabel(s, n, x), j) && HoleFree(Relabel(s, n, x), j)
  {
    hide Addr;
    forall bn | 0 <= bn < MAXFILE && bn * BSIZE < s.inode[j].size ensures DataAddr(Relabel(s, n, x), j, bn) != 0 {
      RelabelAddr(s, n, x, DataSlot(j, bn));
      assert DataAddr(s, j, bn) != 0;
    }
  }

  /** Changing the type or the link count of an inode disturbs neither blocks nor other files. */
  lemma RelabelOk(s1: State, g: Geometry, s: State, n: nat, x: Inode)
    requires Owned(s1, g) && AllHoleFree(s1) && SameFile(s1, n, x) && IsInode(s, n) && SameOthers(s, s1, n)
    requires forall j: nat | IsInode(s, j) :: IsInode(s1, j)
    ensures Owned(Relabel(s1, n, x), g) && AllHoleFree(Relabel(s1, n, x)) && SameOthers(s, Relabel(s1, n, x), n)
  {
    hide Owned, File, HoleFree;
    RelabelOwned(s1, g, n, x);
    forall j | IsInode(Relabel(s1, n, x), j) ensures HoleFree(Relabel(s1, n, x), j) {
      RelabelHoleFree(s1, n, x, j);
    }
    forall j: nat | IsInode(s, j) && j != n && s.inode[j].size <= MAXFILE * BSIZE ensures File(Relabel(s1, n, x), j) == File(s, j) {
      RelabelFile(s1, n, x, j);
    }
  }
}
