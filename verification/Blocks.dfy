/** Who owns which block: the meaning of the free map, the inodes and the indirect blocks of
    kern/fs.c.  Pure definitions and lemmas; Files.dfy has the operations. */
module Blocks {
  import opened Layout

  datatype Inode = Inode(typ: u16, major: u16, minor: u16, nlink: u16, size: nat, addrs: seq<nat>)

  /** A place that can name a block: direct pointers 0..11, the indirect pointer 12, and the
      entries 13.. of the indirect block, of one inode. */
  datatype Slot = Slot(inum: nat, k: nat)

  const NSLOTS: nat := NDIRECT + 1 + NINDIRECT

  /** Block counts and positions from the superblock; blocks below nmeta are metadata. */
  datatype Geometry = Geometry(size: nat, nmeta: nat, inodestart: nat, bmapstart: nat)

  /** The state of the file system as its operations see it through the buffer cache. */
  datatype State = State(bitmap: seq<bv8>, inode: seq<Inode>, block: seq<Block>, owner: map<nat, Slot>)

  predicate IsSlot(s: State, t: Slot) {
    IsInode(s, t.inum) && t.k < NSLOTS
  }

  predicate IsInode(s: State, inum: nat) {
    inum < |s.inode| && |s.inode[inum].addrs| == NDIRECT + 1
  }

  /** The block that a place names, or 0. */
  function Addr(s: State, t: Slot): nat
    requires IsSlot(s, t)
  {
    if t.k <= NDIRECT then s.inode[t.inum].addrs[t.k]
    else if s.inode[t.inum].addrs[NDIRECT] == 0 || s.inode[t.inum].addrs[NDIRECT] >= |s.block| then 0
    else Word(s.block[s.inode[t.inum].addrs[NDIRECT]], t.k - NDIRECT - 1)
  }

  ghost predicate SlotOk(s: State, g: Geometry, t: Slot)
    requires IsSlot(s, t)
  {
    Addr(s, t) != 0 ==> g.nmeta <= Addr(s, t) < g.size && Addr(s, t) in s.owner && s.owner[Addr(s, t)] == t
  }

  ghost predicate OwnerOk(s: State, b: nat)
    requires b in s.owner
  {
    b != 0 && IsSlot(s, s.owner[b]) && Addr(s, s.owner[b]) == b
  }

  /** Every block in use by a file is named by exactly one place, and a bit of the free map is set
      exactly for metadata and for those blocks. */
  ghost predicate Owned(s: State, g: Geometry) {
    && (forall i | 0 <= i < |s.inode| :: |s.inode[i].addrs| == NDIRECT + 1)
    && 0 < g.nmeta <= g.size == |s.block| && g.size <= 8 * |s.bitmap| && g.size < 0x1_0000_0000
    && (forall t | IsSlot(s, t) :: SlotOk(s, g, t))
    && (forall b | b in s.owner :: OwnerOk(s, b))
    && (forall b | 0 <= b < g.size :: Bit(s.bitmap, b) <==> b < g.nmeta || b in s.owner)
  }

  /** The place that names the bn-th block of a file. */
  function DataSlot(inum: nat, bn: nat): Slot {
    Slot(inum, if bn < NDIRECT then bn else bn + 1)
  }

  function DataAddr(s: State, inum: nat, bn: nat): nat
    requires IsInode(s, inum) && bn < MAXFILE
  {
    Addr(s, DataSlot(inum, bn))
  }

  /** Byte i of a file, 0 where it has no block. */
  function Content(s: State, inum: nat, i: nat): byte
    requires IsInode(s, inum) && i < MAXFILE * BSIZE
  {
    var a := DataAddr(s, inum, i / BSIZE);
    if a == 0 || a >= |s.block| then 0 else s.block[a][i % BSIZE]
  }

  ghost predicate SameContent(s: State, s': State) {
    && |s'.inode| == |s.inode| && (forall j | IsInode(s, j) :: IsInode(s', j))
    && forall j, i | IsInode(s, j) && 0 <= i < MAXFILE * BSIZE :: Content(s', j, i) == Content(s, j, i)
  }

  /** Blocks may have been added to one inode; nothing else about places changed. */
  ghost predicate Grown(s: State, s': State, inum: nat) {
    && |s'.inode| == |s.inode| && IsInode(s, inum) && IsInode(s', inum)
    && (forall j | 0 <= j < |s.inode| && j != inum :: s'.inode[j] == s.inode[j])
    && s'.inode[inum] == s.inode[inum].(addrs := s'.inode[inum].addrs)
    && (forall t | IsSlot(s, t) && (t.inum != inum || Addr(s, t) != 0) :: Addr(s', t) == Addr(s, t))
  }

  /** No place but t names another block than before. */
  ghost predicate OnlyPlace(s: State, s': State, t: Slot) {
    forall u | IsSlot(s, u) && u != t :: IsSlot(s', u) && Addr(s', u) == Addr(s, u)
  }

  function SetPointer(i: Inode, k: nat, b: nat): Inode
    requires k < |i.addrs|
  {
    i.(addrs := i.addrs[k := b])
  }

  /** The state after a free block b, zeroed and marked, was put into a pointer of an inode. */
  function WithPointer(s: State, inum: nat, k: nat, b: nat): State
    requires IsInode(s, inum) && k <= NDIRECT && b < |s.block| && b < 8 * |s.bitmap|
  {
    State(SetBit(s.bitmap, b),
          s.inode[inum := SetPointer(s.inode[inum], k, b)],
          s.block[b := Zeroes()], s.owner[b := Slot(inum, k)])
  }

  /** The state after a free block b, zeroed and marked, was put into an indirect entry. */
  function WithEntry(s: State, inum: nat, j: nat, b: nat): State
    requires IsInode(s, inum) && j < NINDIRECT && b < |s.block| && b < 8 * |s.bitmap| && b < 0x1_0000_0000
    requires s.inode[inum].addrs[NDIRECT] < |s.block|
  {
    var a := s.inode[inum].addrs[NDIRECT];
    State(SetBit(s.bitmap, b), s.inode,
          s.block[b := Zeroes()][a := PutWord(s.block[a], j, b)], s.owner[b := Slot(inum, NDIRECT + 1 + j)])
  }

  /** How many of the first n blocks are free. */
  ghost function FreeBlocks(bitmap: seq<bv8>, n: nat): nat
    requires n <= 8 * |bitmap|
  {
    if n == 0 then 0 else FreeBlocks(bitmap, n - 1) + if Bit(bitmap, n - 1) then 0 else 1
  }

  lemma {:induction false} OneLessFree(bitmap: seq<bv8>, b: nat, n: nat)
    requires n <= 8 * |bitmap| && b < 8 * |bitmap| && !Bit(bitmap, b)
    ensures FreeBlocks(SetBit(bitmap, b), n) == FreeBlocks(bitmap, n) - if b < n then 1 else 0
  {
    hide Bit, SetBit;
    if n > 0 {
      OneLessFree(bitmap, b, n - 1);
      BitAfter(bitmap, b, n - 1);
    }
  }

  lemma {:induction false} NoneFree(bitmap: seq<bv8>, n: nat)
    requires n <= 8 * |bitmap|
    ensures FreeBlocks(bitmap, n) == 0 <==> forall k | 0 <= k < n :: Bit(bitmap, k)
  {
    hide Bit;
    if n > 0 {
      NoneFree(bitmap, n - 1);
    }
  }

  ghost predicate Free(s: State, g: Geometry, b: nat)
    requires Owned(s, g)
  {
    b < g.size && !Bit(s.bitmap, b)
  }

  lemma PointerAddr(s: State, g: Geometry, inum: nat, k: nat, b: nat, t: Slot)
    requires Owned(s, g) && Free(s, g, b) && IsInode(s, inum) && k <= NDIRECT && s.inode[inum].addrs[k] == 0
    requires IsSlot(s, t)
    ensures Addr(WithPointer(s, inum, k, b), t) == if t == Slot(inum, k) then b else Addr(s, t)
  {
    assert SlotOk(s, g, Slot(t.inum, NDIRECT));
    assert forall j | 0 <= j < NINDIRECT :: Word(Zeroes(), j) == 0;
  }

  lemma PointerOwned(s: State, g: Geometry, inum: nat, k: nat, b: nat)
    requires Owned(s, g) && Free(s, g, b) && IsInode(s, inum) && k <= NDIRECT && s.inode[inum].addrs[k] == 0
    ensures Owned(WithPointer(s, inum, k, b), g) && Grown(s, WithPointer(s, inum, k, b), inum)
    ensures OnlyPlace(s, WithPointer(s, inum, k, b), Slot(inum, k))
  {
    var s' := WithPointer(s, inum, k, b);
    forall t | IsSlot(s, t) ensures SlotOk(s', g, t) && (t == Slot(inum, k) || Addr(s', t) == Addr(s, t)) {
      assert SlotOk(s, g, t);
      PointerAddr(s, g, inum, k, b, t);
    }
    forall c | c in s'.owner ensures OwnerOk(s', c) {
      if c != b {
        assert OwnerOk(s, c);
      }
    }
    forall c | 0 <= c < g.size ensures Bit(s'.bitmap, c) <==> c < g.nmeta || c in s'.owner {
      BitAfter(s.bitmap, b, c);
    }
  }

  lemma EntryAddr(s: State, g: Geometry, inum: nat, j: nat, b: nat, t: Slot)
    requires Owned(s, g) && Free(s, g, b) && IsInode(s, inum) && j < NINDIRECT
    requires s.inode[inum].addrs[NDIRECT] != 0 && Addr(s, Slot(inum, NDIRECT + 1 + j)) == 0
    requires IsSlot(s, t)
    ensures s.inode[inum].addrs[NDIRECT] < |s.block|
    ensures Addr(WithEntry(s, inum, j, b), t) == if t == Slot(inum, NDIRECT + 1 + j) then b else Addr(s, t)
  {
    hide Word, PutWord;
    var a := s.inode[inum].addrs[NDIRECT];
    assert Addr(s, Slot(inum, NDIRECT)) == a && SlotOk(s, g, Slot(inum, NDIRECT));
    assert Addr(s, Slot(t.inum, NDIRECT)) == s.inode[t.inum].addrs[NDIRECT] && SlotOk(s, g, Slot(t.inum, NDIRECT));
    if t.k > NDIRECT {
      PutThenWord(s.block[a], j, b, t.k - NDIRECT - 1);
    }
  }

  lemma EntryOwned(s: State, g: Geometry, inum: nat, j: nat, b: nat)
    requires Owned(s, g) && Free(s, g, b) && IsInode(s, inum) && j < NINDIRECT
    requires s.inode[inum].addrs[NDIRECT] != 0 && Addr(s, Slot(inum, NDIRECT + 1 + j)) == 0
    ensures s.inode[inum].addrs[NDIRECT] < |s.block|
    ensures Owned(WithEntry(s, inum, j, b), g) && Grown(s, WithEntry(s, inum, j, b), inum)
    ensures OnlyPlace(s, WithEntry(s, inum, j, b), Slot(inum, NDIRECT + 1 + j))
  {
    hide Word, PutWord, Bit, SetBit;
    EntryAddr(s, g, inum, j, b, Slot(inum, NDIRECT));
    var s' := WithEntry(s, inum, j, b);
    forall t | IsSlot(s, t) ensures SlotOk(s', g, t) && (t == Slot(inum, NDIRECT + 1 + j) || Addr(s', t) == Addr(s, t)) {
      assert SlotOk(s, g, t);
      EntryAddr(s, g, inum, j, b, t);
    }
    forall c | c in s'.owner ensures OwnerOk(s', c) {
      assert IsSlot(s, s'.owner[c]) by {
        if c != b {
          assert OwnerOk(s, c);
        }
      }
      EntryAddr(s, g, inum, j, b, s'.owner[c]);
      if c != b {
        assert OwnerOk(s, c);
      }
    }
    forall c | 0 <= c < g.size ensures Bit(s'.bitmap, c) <==> c < g.nmeta || c in s'.owner {
      BitAfter(s.bitmap, b, c);
    }
  }

  /** Two places of files name different blocks, and none of them is metadata. */
  lemma OneOwner(s: State, g: Geometry, t: Slot, u: Slot)
    requires Owned(s, g) && IsSlot(s, t) && IsSlot(s, u) && t != u && Addr(s, t) != 0
    ensures Addr(s, t) != Addr(s, u) && g.nmeta <= Addr(s, t) < g.size && Bit(s.bitmap, Addr(s, t))
  {
    assert SlotOk(s, g, t) && SlotOk(s, g, u);
  }

  /** Replacing a block that no file names data from keeps every byte of every file. */
  lemma ContentAfter(s: State, s': State, g: Geometry, j: nat, i: nat)
    requires Owned(s, g) && IsInode(s, j) && IsInode(s', j) && i < MAXFILE * BSIZE && |s'.block| == |s.block|
    requires
      var a, a' := DataAddr(s, j, i / BSIZE), DataAddr(s', j, i / BSIZE);
      (a' == a && (a != 0 && a < |s.block| ==> s'.block[a] == s.block[a])) || (a == 0 && a' < |s.block| && s'.block[a'] == Zeroes())
    ensures Content(s', j, i) == Content(s, j, i)
  {
    assert SlotOk(s, g, DataSlot(j, i / BSIZE));
  }

  lemma PointerContent(s: State, g: Geometry, inum: nat, k: nat, b: nat)
    requires Owned(s, g) && Free(s, g, b) && IsInode(s, inum) && k <= NDIRECT && s.inode[inum].addrs[k] == 0
    ensures SameContent(s, WithPointer(s, inum, k, b))
  {
    var s' := WithPointer(s, inum, k, b);
    forall j, i | IsInode(s, j) && 0 <= i < MAXFILE * BSIZE ensures Content(s', j, i) == Content(s, j, i) {
      var t := DataSlot(j, i / BSIZE);
      PointerAddr(s, g, inum, k, b, t);
      assert SlotOk(s, g, t);
      ContentAfter(s, s', g, j, i);
    }
  }

  lemma EntryContent(s: State, g: Geometry, inum: nat, j: nat, b: nat)
    requires Owned(s, g) && Free(s, g, b) && IsInode(s, inum) && j < NINDIRECT
    requires s.inode[inum].addrs[NDIRECT] != 0 && Addr(s, Slot(inum, NDIRECT + 1 + j)) == 0
    ensures s.inode[inum].addrs[NDIRECT] < |s.block|
    ensures SameContent(s, WithEntry(s, inum, j, b))
  {
    EntryAddr(s, g, inum, j, b, Slot(inum, NDIRECT));
    var s' := WithEntry(s, inum, j, b);
    forall f, i | IsInode(s, f) && 0 <= i < MAXFILE * BSIZE ensures Content(s', f, i) == Content(s, f, i) {
      var t := DataSlot(f, i / BSIZE);
      EntryAddr(s, g, inum, j, b, t);
      assert SlotOk(s, g, t) && SlotOk(s, g, Slot(inum, NDIRECT));
      ContentAfter(s, s', g, f, i);
    }
  }

  /** The state after bytes were written into the block of a data place. */
  function WithBlock(s: State, a: nat, x: Block): State
    requires a < |s.block|
  {
    State(s.bitmap, s.inode, s.block[a := x], s.owner)
  }

  /** Writing a data block leaves all places alone and changes the bytes of that block only. */
  lemma DataWrite(s: State, g: Geometry, inum: nat, bn: nat, x: Block)
    requires Owned(s, g) && IsInode(s, inum) && bn < MAXFILE && DataAddr(s, inum, bn) != 0
    ensures DataAddr(s, inum, bn) < |s.block|
    ensures
      var s' := WithBlock(s, DataAddr(s, inum, bn), x);
      && Owned(s', g)
      && (forall t | IsSlot(s, t) :: Addr(s', t) == Addr(s, t))
      && forall j, i | IsInode(s, j) && 0 <= i < MAXFILE * BSIZE ::
           Content(s', j, i) == if j == inum && i / BSIZE == bn then x[i % BSIZE] else Content(s, j, i)
  {
    hide Word, Bit;
    var a := DataAddr(s, inum, bn);
    assert SlotOk(s, g, DataSlot(inum, bn));
    var s' := WithBlock(s, a, x);
    forall t | IsSlot(s, t) ensures Addr(s', t) == Addr(s, t) && SlotOk(s', g, t) {
      assert SlotOk(s, g, t) && SlotOk(s, g, Slot(t.inum, NDIRECT));
      assert Addr(s, Slot(t.inum, NDIRECT)) == s.inode[t.inum].addrs[NDIRECT];
    }
    forall c | c in s'.owner ensures OwnerOk(s', c) {
      assert OwnerOk(s, c);
    }
    forall j, i | IsInode(s, j) && 0 <= i < MAXFILE * BSIZE
      ensures Content(s', j, i) == if j == inum && i / BSIZE == bn then x[i % BSIZE] else Content(s, j, i)
    {
      assert SlotOk(s, g, DataSlot(j, i / BSIZE));
    }
  }

  lemma GrownTwice(s: State, s1: State, s2: State, inum: nat)
    requires Grown(s, s1, inum) && Grown(s1, s2, inum)
    ensures Grown(s, s2, inum)
  {
    forall t | IsSlot(s, t) && (t.inum != inum || Addr(s, t) != 0) ensures Addr(s2, t) == Addr(s, t) {
      assert IsSlot(s1, t) && Addr(s1, t) == Addr(s, t);
    }
  }

  lemma SameContentTwice(s: State, s1: State, s2: State)
    requires SameContent(s, s1) && SameContent(s1, s2)
    ensures SameContent(s, s2)
  {
  }

  lemma GrownPointer(s: State, s': State, inum: nat, k: nat)
    requires Grown(s, s', inum) && k < NSLOTS
    ensures IsSlot(s, Slot(inum, k)) && IsSlot(s', Slot(inum, k))
    ensures Addr(s, Slot(inum, k)) != 0 ==> Addr(s', Slot(inum, k)) == Addr(s, Slot(inum, k))
    ensures Addr(s, Slot(inum, NDIRECT)) == s.inode[inum].addrs[NDIRECT]
    ensures Addr(s', Slot(inum, NDIRECT)) == s'.inode[inum].addrs[NDIRECT]
  {
  }
}
