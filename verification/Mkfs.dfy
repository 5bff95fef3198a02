/** The image builder user/src/mkfs/main.c: blocks are handed out in order, and the free map is written
    at the end.  Not ok is a failed assertion, or an image that does not fit. */
module Mkfs {
  import opened Layout
  import opened Blocks
  import opened Files
  import opened Directories
  import opened Updates
  import Disk
  import Recovery
  import Transactions

  const FSSIZE: nat := 1000
  const NINODES: nat := 200
  const NLOG: nat := Disk.LOGSIZE
  const NBITMAP: nat := FSSIZE / (BSIZE * 8) + 1
  const NINODEBLOCKS: nat := NINODES / IPB + 1
  const NMETA: nat := 2 + NLOG + NINODEBLOCKS + NBITMAP

  function Geo(): Geometry { Geometry(FSSIZE, NMETA, 2 + NLOG, 2 + NLOG + NINODEBLOCKS) }

  /** Blocks from freeblock on are untouched, and the ones below it are those in use. */
  ghost predicate Unused(s: State, freeblock: nat) {
    && NMETA <= freeblock <= FSSIZE == |s.block| && FSSIZE <= 8 * |s.bitmap|
    && (forall b | freeblock <= b < FSSIZE :: s.block[b] == Zeroes())
    && (forall b | 0 <= b < FSSIZE :: Bit(s.bitmap, b) <==> b < freeblock)
  }

  /** A file has the blocks that its first `size` bytes take, and no others. */
  ghost predicate Packed(s: State, j: nat, size: nat)
    requires IsInode(s, j)
  {
    && (forall bn | 0 <= bn < MAXFILE :: DataAddr(s, j, bn) != 0 <==> bn * BSIZE < size)
    && (s.inode[j].addrs[NDIRECT] != 0 <==> size > NDIRECT * BSIZE)
  }

  /** The number of blocks that a file of some size takes. */
  function Need(size: nat): nat {
    (size + BSIZE - 1) / BSIZE + if size > NDIRECT * BSIZE then 1 else 0
  }

  lemma NeedMore(size: nat, more: nat)
    requires size <= more
    ensures Need(size) <= Need(more)
  {
  }

  /** What bmap allocates for the block at the end of a packed file is what its next bytes need. */
  lemma FreshIsNeed(s: State, inum: nat, o: nat, m: nat)
    requires IsInode(s, inum) && Packed(s, inum, o) && o < MAXFILE * BSIZE && 0 < m <= BSIZE - o % BSIZE
    ensures Need(o + m) == Need(o) + BmapFresh(s, inum, o / BSIZE)
  {
    hide Addr;
    assert o == BSIZE * (o / BSIZE) + o % BSIZE;
    assert DataAddr(s, inum, o / BSIZE) != 0 <==> o / BSIZE * BSIZE < o;
  }

  /** One place got a block; no other place and no byte of any file changed. */
  ghost predicate Gives(s: State, s': State, inum: nat, u: Slot) {
    && Owned(s', Geo()) && Grown(s, s', inum) && SameContent(s, s') && IsSlot(s, u) && IsSlot(s', u) && Addr(s', u) != 0
    && forall t | IsSlot(s, t) && t != u :: Addr(s', t) == Addr(s, t)
  }

  class Builder {
    var freeinode: nat
    var freeblock: nat
    var dinode: seq<Inode>
    var block: seq<Block>
    ghost var bitmap: seq<bv8>           // the free map that is due
    ghost var owner: map<nat, Slot>

    ghost function S(): State
      reads this
    {
      State(bitmap, dinode, block, owner)
    }

    /** The image as it is once the inode that iappend holds in din is written back. */
    ghost function With(inum: nat, din: Inode): State
      reads this
      requires inum < |dinode|
    {
      State(bitmap, dinode[inum := din], block, owner)
    }

    /** A pointer of an inode, given the next block if it is empty. */
    method PointerFor(inum: nat, din: Inode, k: nat) returns (ok: bool, din': Inode)
      requires inum < |dinode| && |din.addrs| == NDIRECT + 1 && k <= NDIRECT
      requires Owned(With(inum, din), Geo()) && Unused(With(inum, din), freeblock)
      modifies this`freeblock, this`bitmap, this`owner
      ensures ok ==>
                && |din'.addrs| == NDIRECT + 1 && din' == din.(addrs := din'.addrs)
                && Unused(With(inum, din'), freeblock) && Gives(old(With(inum, din)), With(inum, din'), inum, Slot(inum, k))
                && freeblock == old(freeblock) + if din.addrs[k] == 0 then 1 else 0
      ensures !ok ==> freeblock == old(freeblock) == FSSIZE && din.addrs[k] == 0
    {
      hide Word, Bit, SetBit, Content, Addr;
      ghost var s := With(inum, din);
      din' := din;
      PointerAt(s, inum, k);
      if din.addrs[k] != 0 {
        KeepsPlace(s, inum, Slot(inum, k));
        return true, din;
      }
      if freeblock >= FSSIZE {
        return false, din;
      }
      ghost var b := freeblock;
      PointerGives(s, inum, k, b);
      din' := SetPointer(din, k, freeblock);
      freeblock := freeblock + 1;
      bitmap := SetBit(bitmap, b);
      owner := owner[b := Slot(inum, k)];
      assert dinode[inum := din'] == s.inode[inum := SetPointer(s.inode[inum], k, b)];
      assert s.block[b := Zeroes()] == block;
      assert With(inum, din') == WithPointer(s, inum, k, b);
      ok := true;
    }

    /** An entry of the indirect block of an inode, given the next block if it is empty. */
    method EntryFor(inum: nat, din: Inode, j: nat) returns (ok: bool, x: nat)
      requires inum < |dinode| && |din.addrs| == NDIRECT + 1 && j < NINDIRECT && din.addrs[NDIRECT] != 0
      requires Owned(With(inum, din), Geo()) && Unused(With(inum, din), freeblock)
      modifies this`freeblock, this`block, this`bitmap, this`owner
      ensures ok ==>
                && Unused(With(inum, din), freeblock)
                && Gives(old(With(inum, din)), With(inum, din), inum, Slot(inum, NDIRECT + 1 + j))
                && x == Addr(With(inum, din), Slot(inum, NDIRECT + 1 + j))
                && freeblock == old(freeblock) + if old(Addr(With(inum, din), Slot(inum, NDIRECT + 1 + j))) == 0 then 1 else 0
      ensures !ok ==> freeblock == old(freeblock) == FSSIZE && old(Addr(With(inum, din), Slot(inum, NDIRECT + 1 + j))) == 0
    {
      hide Word, PutWord, Bit, SetBit, Content;
      ghost var s := With(inum, din);
      var a := din.addrs[NDIRECT];
      IndirectBlock(s, inum);
      x := Word(block[a], j);
      if x != 0 {
        KeepsPlace(s, inum, Slot(inum, NDIRECT + 1 + j));
        return true, x;
      }
      if freeblock >= FSSIZE {
        return false, 0;
      }
      ghost var b := freeblock;
      EntryGives(s, inum, j, b);
      x := freeblock;
      freeblock := freeblock + 1;
      block := block[a := PutWord(block[a], j, x)];
      bitmap := SetBit(bitmap, b);
      owner := owner[b := Slot(inum, NDIRECT + 1 + j)];
      assert s.block[b := Zeroes()] == s.block;
      assert With(inum, din) == WithEntry(s, inum, j, b);
      ok := true;
    }

    /** The block of block number bn of a file, given to it if it has none. */
    method BlockFor(inum: nat, din: Inode, bn: nat) returns (ok: bool, din': Inode, x: nat)
      requires inum < |dinode| && |din.addrs| == NDIRECT + 1 && bn < MAXFILE
      requires Owned(With(inum, din), Geo()) && Unused(With(inum, din), freeblock)
      modifies this`freeblock, this`block, this`bitmap, this`owner
      ensures ok ==>
                && |din'.addrs| == NDIRECT + 1 && din' == din.(addrs := din'.addrs)
                && Unused(With(inum, din'), freeblock) && Fills(old(With(inum, din)), With(inum, din'), inum, bn)
                && x == DataAddr(With(inum, din'), inum, bn)
                && freeblock == old(freeblock) + old(BmapFresh(With(inum, din), inum, bn))
      ensures !ok ==> old(freeblock + BmapFresh(With(inum, din), inum, bn)) > FSSIZE
    {
      hide Content, Addr, Owned, Unused, Gives, Fills;
      ghost var s := With(inum, din);
      FreshPlaces(s, inum, bn);
      if bn < NDIRECT {
        ok, din' := PointerFor(inum, din, bn);
        if ok {
          GivesData(s, With(inum, din'), inum, bn);
          PointerAt(With(inum, din'), inum, bn);
        }
        return ok, din', if ok then din'.addrs[bn] else 0;
      }
      ok, din' := PointerFor(inum, din, NDIRECT);
      x := 0;
      if ok {
        ghost var s1 := With(inum, din');
        GivesOwned(s, s1, inum, Slot(inum, NDIRECT));
        GivesOthers(s, s1, inum, Slot(inum, NDIRECT), Slot(inum, bn + 1));
        PointerAt(s1, inum, NDIRECT);
        ok, x := EntryFor(inum, din', bn - NDIRECT);
        if ok {
          GivesTwice(s, s1, With(inum, din'), inum, bn);
        }
      }
    }

    /** One turn of the loop of iappend. */
    method AppendStep(inum: nat, din: Inode, src: seq<byte>, off: nat, tot: nat, ghost s0: State) returns (ok: bool, din': Inode, m: nat)
      requires inum < |dinode| && |din.addrs| == NDIRECT + 1 && tot < |src| && IsInode(s0, inum)
      requires Appending(s0, With(inum, din), inum, off, src, tot, freeblock)
      modifies this`freeblock, this`block, this`bitmap, this`owner
      ensures ok ==>
                && |din'.addrs| == NDIRECT + 1 && din' == din.(addrs := din'.addrs) && 0 < m <= |src| - tot
                && Appending(s0, With(inum, din'), inum, off, src, tot + m, freeblock)
                && freeblock - Need(off + tot + m) == old(freeblock) - Need(off + tot)
      ensures !ok ==> old(freeblock) + Need(off + |src|) - Need(off + tot) > FSSIZE
    {
      hide Content, Addr, Owned, Unused, Fills, Spliced, Overlay;
      ghost var s := With(inum, din);
      var bn, x := (off + tot) / BSIZE, 0;
      AppendingBlock(s0, s, inum, off, src, tot, freeblock);
      ok, din', x := BlockFor(inum, din, bn);
      m := Min(|src| - tot, (bn + 1) * BSIZE - (off + tot));
      FreshIsNeed(s, inum, off + tot, m);
      NeedMore(off + tot + m, off + |src|);
      if ok {
        ghost var s1 := With(inum, din');
        FillsBlock(s, s1, inum, bn, freeblock);
        var b := Overlay(block[x], src, tot, m, off + tot - bn * BSIZE);
        AppendMore(s0, s, s1, inum, off, src, tot, m, b, freeblock);
        block := block[x := b];
        assert With(inum, din') == WithBlock(s1, x, b);
      }
    }

    ghost predicate Valid()
      reads this
    {
      && Owned(S(), Geo()) && Unused(S(), freeblock) && |dinode| == IPB * NINODEBLOCKS && 0 < freeinode <= |dinode|
      && (forall j: nat | IsInode(S(), j) :: Tidy(S(), j))
      && (forall j | freeinode <= j < |dinode| :: dinode[j] == EmptyInode())
    }

    /** An image of zeros with only metadata in use. */
    constructor (ghost bits: seq<bv8>)
      requires FirstBits(bits, NMETA)
      ensures Valid() && freeinode == 1 && freeblock == NMETA && dinode[0] == EmptyInode()
    {
      freeinode, freeblock := 1, NMETA;
      dinode, block := seq(IPB * NINODEBLOCKS, _ => EmptyInode()), seq(FSSIZE, _ => Zeroes());
      bitmap, owner := bits, map[];
      new;
      EmptyImage(S());
    }

    /** A new inode with one link.  Not ok: the inode blocks are full. */
    method Ialloc(typ: u16) returns (ok: bool, inum: nat)
      requires Valid() && typ != 0
      modifies this`freeinode, this`dinode
      ensures Valid() && freeblock == old(freeblock) && (ok <==> old(freeinode) < |dinode|)
      ensures !ok ==> S() == old(S()) && freeinode == old(freeinode)
      ensures ok ==>
                && inum == old(freeinode) && freeinode == inum + 1
                && dinode == old(dinode)[inum := EmptyInode().(typ := typ, nlink := 1)]
                && forall j: nat | IsInode(old(S()), j) && old(dinode)[j].size <= MAXFILE * BSIZE :: File(S(), j) == File(old(S()), j)
    {
      hide Owned, Unused, Tidy;
      if freeinode >= |dinode| {
        return false, 0;
      }
      inum := freeinode;
      freeinode := freeinode + 1;
      ghost var s := S();
      AllPlaces(s);
      RelabelTidy(s, inum, EmptyInode().(typ := typ, nlink := 1), freeblock);
      dinode := dinode[inum := EmptyInode().(typ := typ, nlink := 1)];
      assert S() == Relabel(s, inum, EmptyInode().(typ := typ, nlink := 1));
      ok := true;
    }

    /** Adds bytes to the end of a file, if they fit.  The assertion of the loop on the block number is
        checked beforehand. */
    method Iappend(inum: nat, src: seq<byte>) returns (ok: bool)
      requires Valid() && 0 < inum < freeinode
      modifies this`freeblock, this`block, this`bitmap, this`owner, this`dinode
      ensures freeinode == old(freeinode)
      ensures ok ==> Valid() && IsInode(old(S()), inum) && Appended(old(S()), S(), inum, src)
      ensures ok <==>
                && old(dinode)[inum].size + |src| <= MAXFILE * BSIZE
                && old(freeblock - Need(dinode[inum].size)) + Need(old(dinode)[inum].size + |src|) <= FSSIZE
      ensures ok ==> freeblock - Need(dinode[inum].size) == old(freeblock - Need(dinode[inum].size))
    {
      hide Owned, Unused, Tidy, Spliced, Appending;
      ghost var s0 := S();
      AllPlaces(s0);
      var din := dinode[inum];
      var off := din.size;
      if off + |src| > MAXFILE * BSIZE {
        return false;
      }
      var tot := 0;
      assert dinode[inum := din] == dinode;
      AppendingNone(s0, inum, src, freeblock);
      while tot < |src|
        invariant tot <= |src| && dinode == s0.inode && |din.addrs| == NDIRECT + 1 && din == s0.inode[inum].(addrs := din.addrs)
        invariant Appending(s0, With(inum, din), inum, off, src, tot, freeblock)
        invariant freeblock - Need(off + tot) == old(freeblock) - Need(off)
      {
        var m;
        ok, din, m := AppendStep(inum, din, src, off, tot, s0);
        if !ok {
          return;
        }
        tot := tot + m;
      }
      ghost var s1 := With(inum, din);
      din := SetSize(din, off + |src|);
      AppendedTidy(s0, s1, inum, src, freeblock);
      UnusedRange(Resize(s1, inum, off + |src|), freeblock);
      dinode := dinode[inum := din];
      assert S() == Resize(s1, inum, off + |src|);
      ok := true;
    }

    /** The rounding of the root directory's size to whole blocks. */
    method RoundRoot()
      requires Valid() && freeinode > ROOT
      modifies this`dinode
      ensures IsInode(old(S()), ROOT) && S() == Resize(old(S()), ROOT, (old(dinode)[ROOT].size / BSIZE + 1) * BSIZE)
    {
      AllPlaces(S());
      var off := dinode[ROOT].size;
      off := (off / BSIZE + 1) * BSIZE;
      dinode := dinode[ROOT := SetSize(dinode[ROOT], off)];
    }

    /** One input file: an inode, an entry in the root directory, and the chunks that were read.  Not ok:
        the image does not hold it. */
    method AddFile(names: seq<seq<byte>>, contents: seq<seq<seq<byte>>>, i: nat) returns (ok: bool)
      requires Valid() && i < |names| == |contents| && freeinode == i + 2 && Built(S(), names, contents, i)
      requires freeblock == NMETA + Need(DIRENT * (i + 2)) + FileBlocks(contents, i)
      modifies this
      ensures ok ==> Valid() && freeinode == i + 3 && Built(S(), names, contents, i + 1)
      ensures ok ==> freeblock == NMETA + Need(DIRENT * (i + 3)) + FileBlocks(contents, i + 1)
      ensures ok <==> Fits(contents, i + 1)
    {
      hide Owned, Unused, Tidy, File, Dirent, Listed, Kinds, Filling, Appended, RootText, Joined, Need;
      ghost var s := S();
      AllPlaces(s);
      var inum;
      ok, inum := Ialloc(T_FILE);
      if !ok {
        return;
      }
      ghost var s1 := S();
      AllPlaces(s1);
      NewFile(s, s1, names, contents, i, EmptyInode().(typ := T_FILE, nlink := 1));
      RootSize(s1, names, contents, i);
      ok := Iappend(ROOT, Dirent(names[i], inum));
      if !ok {
        return;
      }
      AllPlaces(S());
      NewEntry(s1, S(), names, contents, i);
      FillingSize(S(), names, contents, i, 0);
      ok := AddContent(names, contents, i);
    }

    method AddContent(ghost names: seq<seq<byte>>, contents: seq<seq<seq<byte>>>, i: nat) returns (ok: bool)
      requires Valid() && i < |names| == |contents| && freeinode == i + 3 && Filling(S(), names, contents, i, 0)
      requires freeblock == NMETA + Need(DIRENT * (i + 3)) + FileBlocks(contents, i)
      modifies this
      ensures ok ==> Valid() && freeinode == i + 3 && Built(S(), names, contents, i + 1)
      ensures ok ==> freeblock == NMETA + Need(DIRENT * (i + 3)) + FileBlocks(contents, i + 1)
      ensures ok <==> Fits(contents, i + 1)
    {
      hide Owned, Unused, Tidy, File, Filling, Built, Appended, Need;
      ok := true;
      NeedNothing();
      for k := 0 to |contents[i]|
        invariant Valid() && freeinode == i + 3 && Filling(S(), names, contents, i, k)
        invariant freeblock == NMETA + Need(DIRENT * (i + 3)) + FileBlocks(contents, i) + Need(|Joined(contents[i], k)|)
      {
        ghost var s := S();
        AllPlaces(s);
        FileSize(s, names, contents, i, k);
        JoinedMore(contents[i], k + 1, |contents[i]|);
        ok := Iappend(i + 2, contents[i][k]);
        if !ok {
          return;
        }
        AllPlaces(S());
        MoreContent(s, S(), names, contents, i, k);
        FileSize(S(), names, contents, i, k + 1);
      }
      AllFilled(S(), names, contents, i);
      UnusedRange(S(), freeblock);
      BuiltSizes(S(), names, contents, i + 1);
    }
  }

  const ROOT: nat := 1
  const DOT: seq<byte> := [46]
  const DOTDOT: seq<byte> := [46, 46]

  /** The root directory after n files. */
  function RootText(names: seq<seq<byte>>, n: nat): seq<byte>
    requires n <= |names|
  {
    if n == 0 then Dirent(DOT, ROOT) + Dirent(DOTDOT, ROOT) else RootText(names, n - 1) + Dirent(names[n - 1], n + 1)
  }

  /** The first k chunks, one after the other. */
  function Joined(chunks: seq<seq<byte>>, k: nat): seq<byte>
    requires k <= |chunks|
  {
    if k == 0 then [] else Joined(chunks, k - 1) + chunks[k - 1]
  }

  /** The number of blocks that the first n files take. */
  function FileBlocks(contents: seq<seq<seq<byte>>>, n: nat): nat
    requires n <= |contents|
  {
    if n == 0 then 0 else FileBlocks(contents, n - 1) + Need(|Joined(contents[n - 1], |contents[n - 1]|)|)
  }

  /** The image has room for the first n files: inodes, block numbers within each file, and blocks. */
  predicate Fits(contents: seq<seq<seq<byte>>>, n: nat)
    requires n <= |contents|
  {
    && n + 2 <= IPB * NINODEBLOCKS
    && (forall k | 0 <= k < n :: |Joined(contents[k], |contents[k]|)| <= MAXFILE * BSIZE)
    && NMETA + Need(DIRENT * (n + 2)) + FileBlocks(contents, n) <= FSSIZE
  }

  lemma NeedNothing()
    ensures Need(0) == 0
  {
  }

  lemma FitsNone(contents: seq<seq<seq<byte>>>)
    ensures Fits(contents, 0)
  {
  }

  lemma {:induction false} JoinedMore(chunks: seq<seq<byte>>, k: nat, n: nat)
    requires k <= n <= |chunks|
    ensures |Joined(chunks, k)| <= |Joined(chunks, n)|
    ensures Need(|Joined(chunks, k)|) <= Need(|Joined(chunks, n)|)
  {
    if k < n {
      JoinedMore(chunks, k, n - 1);
      NeedMore(|Joined(chunks, n - 1)|, |Joined(chunks, n)|);
    }
  }

  lemma {:induction false} FitsLess(contents: seq<seq<seq<byte>>>, n: nat, m: nat)
    requires n <= m <= |contents| && Fits(contents, m)
    ensures Fits(contents, n)
  {
    if n < m {
      NeedMore(DIRENT * (m + 1), DIRENT * (m + 2));
      FitsLess(contents, n, m - 1);
    }
  }

  ghost predicate IsFile(s: State, j: nat, f: seq<byte>) {
    IsInode(s, j) && s.inode[j].size <= MAXFILE * BSIZE && File(s, j) == f
  }

  /** Inode 1 is a directory and the n inodes from 2 on are plain files, each with one link; no other
      inode is in use. */
  ghost predicate Kinds(s: State, n: nat) {
    && n + 1 < |s.inode| && s.inode[1].typ == 1 && s.inode[1].nlink == 1
    && (forall j | 2 <= j < n + 2 :: s.inode[j].typ == 2 && s.inode[j].nlink == 1)
    && (forall j | 0 <= j < |s.inode| && (j == 0 || j >= n + 2) :: s.inode[j] == EmptyInode())
  }

  lemma SameKinds(s: State, s': State, inum: nat, n: nat)
    requires Kinds(s, n) && 0 < inum < n + 2 && |s'.inode| == |s.inode|
    requires s'.inode[inum] == s.inode[inum].(addrs := s'.inode[inum].addrs, size := s'.inode[inum].size)
    requires forall j | 0 <= j < |s.inode| && j != inum :: s'.inode[j] == s.inode[j]
    ensures Kinds(s', n)
  {
  }

  /** The image holds the first n files and the directory that lists them. */
  ghost predicate Built(s: State, names: seq<seq<byte>>, contents: seq<seq<seq<byte>>>, n: nat)
    requires n <= |names| == |contents|
  {
    Kinds(s, n) && Listed(s, names, contents, n)
  }

  ghost predicate Listed(s: State, names: seq<seq<byte>>, contents: seq<seq<seq<byte>>>, n: nat)
    requires n <= |names| == |contents|
  {
    && IsFile(s, ROOT, RootText(names, n))
    && forall k | 0 <= k < n :: IsFile(s, k + 2, Joined(contents[k], |contents[k]|))
  }

  /** File n is listed, and its first k chunks are in. */
  ghost predicate Filling(s: State, names: seq<seq<byte>>, contents: seq<seq<seq<byte>>>, n: nat, k: nat)
    requires n < |names| == |contents| && k <= |contents[n]|
  {
    && Kinds(s, n + 1) && IsFile(s, ROOT, RootText(names, n + 1)) && IsFile(s, n + 2, Joined(contents[n], k))
    && forall j | 0 <= j < n :: IsFile(s, j + 2, Joined(contents[j], |contents[j]|))
  }

  lemma {:induction false} RootLength(names: seq<seq<byte>>, n: nat)
    requires n <= |names|
    ensures |RootText(names, n)| == DIRENT * (n + 2)
  {
    hide Dirent;
    if n > 0 {
      RootLength(names, n - 1);
    }
  }

  lemma RootSize(s: State, names: seq<seq<byte>>, contents: seq<seq<seq<byte>>>, n: nat)
    requires n <= |names| == |contents| && Listed(s, names, contents, n)
    ensures ROOT < |s.inode| && s.inode[ROOT].size == DIRENT * (n + 2)
  {
    hide File, RootText;
    RootLength(names, n);
  }

  lemma FillingSize(s: State, names: seq<seq<byte>>, contents: seq<seq<seq<byte>>>, n: nat, k: nat)
    requires n < |names| == |contents| && k <= |contents[n]| && Filling(s, names, contents, n, k)
    ensures ROOT < |s.inode| && s.inode[ROOT].size == DIRENT * (n + 3)
  {
    hide File, RootText;
    RootLength(names, n + 1);
  }

  lemma FileSize(s: State, names: seq<seq<byte>>, contents: seq<seq<seq<byte>>>, n: nat, k: nat)
    requires n < |names| == |contents| && k <= |contents[n]| && Filling(s, names, contents, n, k)
    ensures n + 2 < |s.inode| && s.inode[n + 2].size == |Joined(contents[n], k)|
  {
    hide File, RootText;
  }

  lemma BuiltSizes(s: State, names: seq<seq<byte>>, contents: seq<seq<seq<byte>>>, n: nat)
    requires n <= |names| == |contents| && Built(s, names, contents, n)
    ensures forall k | 0 <= k < n :: |Joined(contents[k], |contents[k]|)| <= MAXFILE * BSIZE
  {
    hide File, RootText;
    forall k | 0 <= k < n ensures |Joined(contents[k], |contents[k]|)| <= MAXFILE * BSIZE {
      assert IsFile(s, k + 2, Joined(contents[k], |contents[k]|));
    }
  }

  lemma NewFile(s: State, s1: State, names: seq<seq<byte>>, contents: seq<seq<seq<byte>>>, i: nat, x: Inode)
    requires i < |names| == |contents| && Built(s, names, contents, i) && i + 2 < |s.inode| && s1.inode == s.inode[i + 2 := x]
    requires (forall j: nat | j < |s1.inode| :: IsInode(s1, j)) && x == EmptyInode().(typ := 2, nlink := 1)
    requires forall j: nat | IsInode(s, j) && s.inode[j].size <= MAXFILE * BSIZE :: File(s1, j) == File(s, j)
    ensures IsFile(s1, i + 2, []) && Listed(s1, names, contents, i) && Kinds(s1, i + 1)
  {
    hide Content;
    forall k | 0 <= k < i ensures IsFile(s1, k + 2, Joined(contents[k], |contents[k]|)) {
      assert IsFile(s, k + 2, Joined(contents[k], |contents[k]|));
    }
  }

  lemma NewEntry(s1: State, s2: State, names: seq<seq<byte>>, contents: seq<seq<seq<byte>>>, i: nat)
    requires i < |names| == |contents| && Listed(s1, names, contents, i) && Kinds(s1, i + 1) && IsFile(s1, i + 2, [])
    requires IsInode(s1, ROOT) && Appended(s1, s2, ROOT, Dirent(names[i], i + 2))
    requires (forall j: nat | j < |s1.inode| :: IsInode(s1, j)) && forall j: nat | j < |s2.inode| :: IsInode(s2, j)
    ensures Filling(s2, names, contents, i, 0)
  {
    hide File, Dirent, Kinds;
    SameKinds(s1, s2, ROOT, i + 1);
    forall k | 0 <= k < i ensures IsFile(s2, k + 2, Joined(contents[k], |contents[k]|)) {
      assert IsFile(s1, k + 2, Joined(contents[k], |contents[k]|));
    }
  }

  lemma MoreContent(s2: State, s3: State, names: seq<seq<byte>>, contents: seq<seq<seq<byte>>>, i: nat, k: nat)
    requires i < |names| == |contents| && k < |contents[i]| && Filling(s2, names, contents, i, k)
    requires IsInode(s2, i + 2) && Appended(s2, s3, i + 2, contents[i][k])
    requires (forall j: nat | j < |s2.inode| :: IsInode(s2, j)) && forall j: nat | j < |s3.inode| :: IsInode(s3, j)
    ensures Filling(s3, names, contents, i, k + 1)
  {
    hide File, RootText, Kinds;
    SameKinds(s2, s3, i + 2, i + 1);
    forall j | 0 <= j < i ensures IsFile(s3, j + 2, Joined(contents[j], |contents[j]|)) {
      assert IsFile(s2, j + 2, Joined(contents[j], |contents[j]|));
    }
  }

  lemma AllFilled(s: State, names: seq<seq<byte>>, contents: seq<seq<seq<byte>>>, i: nat)
    requires i < |names| == |contents| && Filling(s, names, contents, i, |contents[i]|)
    ensures Built(s, names, contents, i + 1)
  {
    hide File, RootText;
    forall k | 0 <= k < i + 1 ensures IsFile(s, k + 2, Joined(contents[k], |contents[k]|)) {
    }
  }

  lemma SomeBits(n: nat) returns (bits: seq<bv8>)
    requires n <= BPB
    ensures FirstBits(bits, n)
    decreases n
  {
    if n == 0 {
      bits := seq(BSIZE, _ => 0);
      NoBits(bits);
    } else {
      bits := SomeBits(n - 1);
      OneMoreBit(bits, n - 1);
      bits := SetBit(bits, n - 1);
    }
  }

  function EmptyInode(): Inode { Inode(0, 0, 0, 0, 0, seq(NDIRECT + 1, _ => 0)) }

  /** The bytes of a file lie in allocated blocks, no other blocks are allocated to it, and what its last
      block has beyond its end is zero. */
  ghost predicate Tidy(s: State, j: nat)
    requires IsInode(s, j)
  {
    && HoleFree(s, j) && Packed(s, j, s.inode[j].size)
    && forall i | s.inode[j].size <= i < MAXFILE * BSIZE :: Content(s, j, i) == 0
  }

  /** src was added to the end of a file, and nothing else changed. */
  ghost predicate Appended(s: State, s': State, inum: nat, src: seq<byte>)
    requires IsInode(s, inum)
  {
    && |s'.inode| == |s.inode| && IsInode(s', inum)
    && s.inode[inum].size <= MAXFILE * BSIZE && s'.inode[inum].size <= MAXFILE * BSIZE
    && File(s', inum) == File(s, inum) + src
    && s'.inode[inum] == s.inode[inum].(addrs := s'.inode[inum].addrs, size := s'.inode[inum].size)
    && (forall j: nat | IsInode(s, j) && j != inum :: s'.inode[j] == s.inode[j])
    && (forall j: nat | IsInode(s, j) && j != inum && s.inode[j].size <= MAXFILE * BSIZE :: File(s', j) == File(s, j))
  }

  lemma AllPlaces(s: State)
    requires Owned(s, Geo())
    ensures forall j: nat | j < |s.inode| :: IsInode(s, j)
  {
  }

  /** Exactly the bits below n are set. */
  ghost predicate FirstBits(bits: seq<bv8>, n: nat) {
    |bits| == BSIZE && forall b | 0 <= b < BPB :: Bit(bits, b) <==> b < n
  }

  lemma NoBits(bits: seq<bv8>)
    requires |bits| == BSIZE && forall i | 0 <= i < BSIZE :: bits[i] == 0
    ensures FirstBits(bits, 0)
  {
  }

  lemma OneMoreBit(bits: seq<bv8>, n: nat)
    requires n < BPB && FirstBits(bits, n)
    ensures FirstBits(SetBit(bits, n), n + 1)
  {
    forall b | 0 <= b < BPB ensures Bit(SetBit(bits, n), b) <==> b < n + 1 {
      BitAfter(bits, n, b);
    }
  }

  /** balloc: the free map with the first `used` blocks in use.  Not ok: it would take a second block. */
  method Balloc(used: nat) returns (ok: bool, bits: seq<bv8>)
    ensures (ok <==> used < BSIZE * 8) && (ok ==> FirstBits(bits, used))
  {
    hide Bit, SetBit;
    if used >= BSIZE * 8 {
      return false, [];
    }
    bits := seq(BSIZE, _ => 0);
    NoBits(bits);
    for i := 0 to used
      invariant FirstBits(bits, i)
    {
      OneMoreBit(bits, i);
      bits := SetBit(bits, i);
    }
    ok := true;
  }

  lemma EmptyImage(s: State)
    requires s.inode == seq(IPB * NINODEBLOCKS, _ => EmptyInode()) && s.block == seq(FSSIZE, _ => Zeroes())
    requires FirstBits(s.bitmap, NMETA) && s.owner == map[]
    ensures Owned(s, Geo()) && Unused(s, NMETA) && forall j: nat | IsInode(s, j) :: Tidy(s, j)
  {
    hide Bit;
  }

  lemma RelabelTidy(s: State, n: nat, x: Inode, freeblock: nat)
    requires Owned(s, Geo()) && Unused(s, freeblock) && SameFile(s, n, x) && forall j: nat | IsInode(s, j) :: Tidy(s, j)
    ensures
      var s' := Relabel(s, n, x);
      && Owned(s', Geo()) && Unused(s', freeblock) && (forall j: nat | IsInode(s', j) :: Tidy(s', j))
      && forall j: nat | IsInode(s, j) && s.inode[j].size <= MAXFILE * BSIZE :: File(s', j) == File(s, j)
  {
    hide Owned, File, Bit, HoleFree, Content, Addr;
    var s' := Relabel(s, n, x);
    RelabelOwned(s, Geo(), n, x);
    forall j: nat | IsInode(s', j) ensures Tidy(s', j) {
      assert Tidy(s, j);
      RelabelHoleFree(s, n, x, j);
      forall i | s.inode[j].size <= i < MAXFILE * BSIZE ensures Content(s', j, i) == 0 {
        RelabelContent(s, n, x, j, i);
      }
      forall c | 0 <= c < MAXFILE ensures DataAddr(s', j, c) == DataAddr(s, j, c) {
        RelabelAddr(s, n, x, DataSlot(j, c));
      }
    }
    forall j: nat | IsInode(s, j) && s.inode[j].size <= MAXFILE * BSIZE ensures File(s', j) == File(s, j) {
      RelabelFile(s, n, x, j);
    }
  }

  lemma AppendingNone(s: State, inum: nat, src: seq<byte>, freeblock: nat)
    requires Owned(s, Geo()) && Unused(s, freeblock) && IsInode(s, inum) && Tidy(s, inum) && s.inode[inum].size + |src| <= MAXFILE * BSIZE
    ensures Appending(s, s, inum, s.inode[inum].size, src, 0, freeblock)
  {
    hide Owned, Unused, Addr, Content, Spliced;
    FirstBlock(s, inum, s.inode[inum].size);
    SplicedNone(s, inum, s.inode[inum].size, src);
  }

  lemma AppendedTidy(s0: State, s1: State, inum: nat, src: seq<byte>, freeblock: nat)
    requires Owned(s0, Geo()) && IsInode(s0, inum) && (forall j: nat | IsInode(s0, j) :: Tidy(s0, j))
    requires Appending(s0, s1, inum, s0.inode[inum].size, src, |src|, freeblock)
    ensures IsInode(s1, inum)
    ensures
      var s2 := Resize(s1, inum, s0.inode[inum].size + |src|);
      && Owned(s2, Geo()) && Unused(s2, freeblock) && (forall j: nat | IsInode(s2, j) :: Tidy(s2, j)) && Appended(s0, s2, inum, src)
  {
    hide Owned, Addr, Content, Spliced, File, Bit, HoleFree;
    var off := s0.inode[inum].size;
    var s2 := Resize(s1, inum, off + |src|);
    SplicedInode(s0, s1, inum, off, src, |src|);
    assert AllHoleFree(s0);
    Resized(s0, s1, s2, Geo(), inum, off, src);
    forall j: nat | IsInode(s2, j) ensures Tidy(s2, j) {
      TidyAfter(s0, s1, s2, inum, src, freeblock, j);
    }
    assert Tidy(s0, inum) && Splice(File(s0, inum), off, src) == File(s0, inum) + src by {
      SpliceEnd(s0, inum, src);
    }
  }

  lemma SpliceEnd(s: State, inum: nat, src: seq<byte>)
    requires IsInode(s, inum) && Tidy(s, inum)
    ensures s.inode[inum].size <= MAXFILE * BSIZE && Splice(File(s, inum), s.inode[inum].size, src) == File(s, inum) + src
  {
    hide Content, Addr;
  }

  lemma TidyAfter(s0: State, s1: State, s2: State, inum: nat, src: seq<byte>, freeblock: nat, j: nat)
    requires IsInode(s0, inum) && IsInode(s0, j) && Tidy(s0, j) && IsInode(s1, inum) && IsInode(s2, j) && HoleFree(s2, j)
    requires Appending(s0, s1, inum, s0.inode[inum].size, src, |src|, freeblock) && s2 == Resize(s1, inum, s0.inode[inum].size + |src|)
    ensures Tidy(s2, j)
  {
    hide Owned, Addr, Content, Bit, HoleFree;
    var off := s0.inode[inum].size;
    forall i | s2.inode[j].size <= i < MAXFILE * BSIZE ensures Content(s2, j, i) == 0 {
      assert SplicedAt(s0, s1, inum, off, src, |src|, j, i);
      ResizeContent(s1, inum, off + |src|, j, i);
    }
    forall c | 0 <= c < MAXFILE ensures DataAddr(s2, j, c) != 0 <==> c * BSIZE < s2.inode[j].size {
      ResizeAddr(s1, inum, off + |src|, DataSlot(j, c));
      assert IsSlot(s0, DataSlot(j, c));
      if j != inum {
        assert DataAddr(s0, j, c) != 0 <==> c * BSIZE < s0.inode[j].size;
      } else {
        assert DataAddr(s1, j, c) != 0 <==> c * BSIZE < off + |src|;
      }
    }
  }

  lemma ResizeContent(s: State, inum: nat, size: nat, j: nat, i: nat)
    requires IsInode(s, inum) && IsInode(s, j) && i < MAXFILE * BSIZE
    ensures Content(Resize(s, inum, size), j, i) == Content(s, j, i)
  {
    hide Addr;
    ResizeAddr(s, inum, size, DataSlot(j, i / BSIZE));
  }

  /** Block bn of a file has a block; no other block of it came or went. */
  ghost predicate Fills(s: State, s': State, inum: nat, bn: nat) {
    && bn < MAXFILE && Owned(s', Geo()) && Grown(s, s', inum) && SameContent(s, s') && IsInode(s, inum) && IsInode(s', inum)
    && DataAddr(s', inum, bn) != 0 && (s'.inode[inum].addrs[NDIRECT] == 0 <==> bn < NDIRECT && s.inode[inum].addrs[NDIRECT] == 0)
    && forall c | 0 <= c < MAXFILE && c != bn :: DataAddr(s', inum, c) == DataAddr(s, inum, c)
  }

  ghost predicate Appending(s0: State, s: State, inum: nat, off: nat, src: seq<byte>, tot: nat, freeblock: nat)
    requires IsInode(s0, inum)
  {
    && Owned(s, Geo()) && Unused(s, freeblock) && Spliced(s0, s, inum, off, src, tot)
    && IsInode(s, inum) && Packed(s, inum, off + tot)
  }

  lemma PointerAt(s: State, inum: nat, k: nat)
    requires IsInode(s, inum) && k <= NDIRECT
    ensures IsSlot(s, Slot(inum, k)) && Addr(s, Slot(inum, k)) == s.inode[inum].addrs[k]
  {
  }

  lemma GivesOwned(s: State, s1: State, inum: nat, u: Slot)
    requires Gives(s, s1, inum, u)
    ensures Owned(s1, Geo()) && IsInode(s1, inum) && Addr(s1, u) != 0
  {
  }

  lemma GivesOthers(s: State, s1: State, inum: nat, u: Slot, t: Slot)
    requires Gives(s, s1, inum, u) && IsSlot(s, t) && t != u
    ensures IsSlot(s1, t) && Addr(s1, t) == Addr(s, t)
  {
  }

  /** BmapFresh by places. */
  lemma FreshPlaces(s: State, inum: nat, bn: nat)
    requires IsInode(s, inum) && bn < MAXFILE
    ensures IsSlot(s, DataSlot(inum, bn)) && IsSlot(s, Slot(inum, NDIRECT))
    ensures BmapFresh(s, inum, bn) == (if Addr(s, DataSlot(inum, bn)) == 0 then 1 else 0)
                                    + (if bn >= NDIRECT && Addr(s, Slot(inum, NDIRECT)) == 0 then 1 else 0)
    ensures Addr(s, Slot(inum, NDIRECT)) == s.inode[inum].addrs[NDIRECT]
    ensures bn < NDIRECT ==> Addr(s, DataSlot(inum, bn)) == s.inode[inum].addrs[bn]
  {
  }

  lemma UnusedRange(s: State, freeblock: nat)
    requires Unused(s, freeblock)
    ensures NMETA <= freeblock <= FSSIZE
  {
  }

  lemma SamePointer(s: State, s1: State, inum: nat, u: Slot)
    requires Gives(s, s1, inum, u) && u.k != NDIRECT
    ensures IsInode(s, inum) && IsInode(s1, inum) && s1.inode[inum].addrs[NDIRECT] == s.inode[inum].addrs[NDIRECT]
  {
    GivesOthers(s, s1, inum, u, Slot(inum, NDIRECT));
    PointerAt(s, inum, NDIRECT);
    PointerAt(s1, inum, NDIRECT);
  }

  lemma GivesData(s: State, s1: State, inum: nat, bn: nat)
    requires bn < NDIRECT && Gives(s, s1, inum, DataSlot(inum, bn))
    ensures Fills(s, s1, inum, bn)
  {
    hide Addr, Content, Owned;
    forall c | 0 <= c < MAXFILE && c != bn ensures DataAddr(s1, inum, c) == DataAddr(s, inum, c) {
      assert IsSlot(s, DataSlot(inum, c)) && DataSlot(inum, c) != DataSlot(inum, bn);
    }
    SamePointer(s, s1, inum, DataSlot(inum, bn));
  }

  lemma GivesTwice(s: State, s1: State, s2: State, inum: nat, bn: nat)
    requires NDIRECT <= bn < MAXFILE && Gives(s, s1, inum, Slot(inum, NDIRECT)) && Gives(s1, s2, inum, Slot(inum, bn + 1))
    ensures Fills(s, s2, inum, bn)
  {
    hide Addr, Content, Owned;
    GrownTwice(s, s1, s2, inum);
    SameContentTwice(s, s1, s2);
    forall c | 0 <= c < MAXFILE && c != bn ensures DataAddr(s2, inum, c) == DataAddr(s, inum, c) {
      var t := DataSlot(inum, c);
      assert IsSlot(s, t) && t != Slot(inum, NDIRECT) && t != Slot(inum, bn + 1);
      assert IsSlot(s1, t);
    }
    SamePointer(s1, s2, inum, Slot(inum, bn + 1));
    PointerAt(s1, inum, NDIRECT);
  }

  lemma AppendingBlock(s0: State, s: State, inum: nat, off: nat, src: seq<byte>, tot: nat, freeblock: nat)
    requires IsInode(s0, inum) && Appending(s0, s, inum, off, src, tot, freeblock) && tot < |src|
    ensures Owned(s, Geo()) && Unused(s, freeblock) && IsInode(s, inum) && Spliced(s0, s, inum, off, src, tot)
    ensures var bn := (off + tot) / BSIZE; bn < MAXFILE && bn * BSIZE <= off + tot < (bn + 1) * BSIZE
    ensures (off + tot) - (off + tot) / BSIZE * BSIZE == (off + tot) % BSIZE
  {
    hide Addr, Content, Owned, Unused;
  }

  lemma FillsBlock(s: State, s1: State, inum: nat, bn: nat, freeblock: nat)
    requires Fills(s, s1, inum, bn) && Unused(s1, freeblock)
    ensures Owned(s1, Geo()) && 0 < DataAddr(s1, inum, bn) < freeblock && DataAddr(s1, inum, bn) < |s1.block|
  {
    hide Content, Addr;
    assert SlotOk(s1, Geo(), DataSlot(inum, bn));
  }

  lemma AppendMore(s0: State, s: State, s1: State, inum: nat, off: nat, src: seq<byte>, tot: nat, m: nat, b: Block, freeblock: nat)
    requires IsInode(s0, inum) && Spliced(s0, s, inum, off, src, tot) && IsInode(s, inum) && Packed(s, inum, off + tot) && tot < |src|
    requires Fills(s, s1, inum, (off + tot) / BSIZE) && Unused(s1, freeblock)
    requires m == Min(|src| - tot, BSIZE - (off + tot) % BSIZE)
    requires DataAddr(s1, inum, (off + tot) / BSIZE) < |s1.block|
    requires b == Overlay(s1.block[DataAddr(s1, inum, (off + tot) / BSIZE)], src, tot, m, (off + tot) % BSIZE)
    ensures Appending(s0, WithBlock(s1, DataAddr(s1, inum, (off + tot) / BSIZE), b), inum, off, src, tot + m, freeblock)
  {
    hide Content, Addr, Owned, Spliced, Overlay, Unused;
    var bn := (off + tot) / BSIZE;
    FillsBlock(s, s1, inum, bn, freeblock);
    DataWrite(s1, Geo(), inum, bn, b);
    var s2 := WithBlock(s1, DataAddr(s1, inum, bn), b);
    SplicedMore(s0, s, s1, s2, inum, off, src, tot, m, b);
    UnusedStays(s1, DataAddr(s1, inum, bn), b, freeblock);
    assert off + tot == BSIZE * bn + (off + tot) % BSIZE;
    forall c | 0 <= c < MAXFILE ensures DataAddr(s2, inum, c) != 0 <==> c * BSIZE < off + tot + m {
      assert IsSlot(s1, DataSlot(inum, c)) && DataAddr(s2, inum, c) == DataAddr(s1, inum, c);
      assert c != bn ==> DataAddr(s1, inum, c) == DataAddr(s, inum, c);
    }
  }

  lemma UnusedStays(s: State, a: nat, b: Block, freeblock: nat)
    requires Unused(s, freeblock) && a < freeblock && a < |s.block|
    ensures Unused(WithBlock(s, a, b), freeblock)
  {
  }

  lemma KeepsPlace(s: State, inum: nat, u: Slot)
    requires Owned(s, Geo()) && IsInode(s, inum) && IsSlot(s, u) && Addr(s, u) != 0
    ensures Gives(s, s, inum, u)
  {
    hide Addr, Content, Owned;
  }

  lemma IndirectBlock(s: State, inum: nat)
    requires Owned(s, Geo()) && IsInode(s, inum) && s.inode[inum].addrs[NDIRECT] != 0
    ensures NMETA <= s.inode[inum].addrs[NDIRECT] < FSSIZE && Bit(s.bitmap, s.inode[inum].addrs[NDIRECT])
  {
    assert SlotOk(s, Geo(), Slot(inum, NDIRECT));
  }

  lemma UnusedMore(bitmap: seq<bv8>, b: nat)
    requires b < FSSIZE <= 8 * |bitmap| && forall c | 0 <= c < FSSIZE :: Bit(bitmap, c) <==> c < b
    ensures |SetBit(bitmap, b)| == |bitmap| && forall c | 0 <= c < FSSIZE :: Bit(SetBit(bitmap, b), c) <==> c < b + 1
  {
    forall c | 0 <= c < FSSIZE ensures Bit(SetBit(bitmap, b), c) <==> c < b + 1 {
      BitAfter(bitmap, b, c);
    }
  }

  lemma PointerGives(s: State, inum: nat, k: nat, b: nat)
    requires Owned(s, Geo()) && Unused(s, b) && b < FSSIZE && IsInode(s, inum) && k <= NDIRECT && s.inode[inum].addrs[k] == 0
    ensures
      var s' := WithPointer(s, inum, k, b);
      Gives(s, s', inum, Slot(inum, k)) && Unused(s', b + 1)
  {
    hide Word, Bit, SetBit, Content, Addr, Owned;
    var s' := WithPointer(s, inum, k, b);
    PointerOwned(s, Geo(), inum, k, b);
    PointerContent(s, Geo(), inum, k, b);
    UnusedMore(s.bitmap, b);
    forall t | IsSlot(s, t) ensures Addr(s', t) == if t == Slot(inum, k) then b else Addr(s, t) {
      PointerAddr(s, Geo(), inum, k, b, t);
    }
  }

  lemma EntryGives(s: State, inum: nat, j: nat, b: nat)
    requires Owned(s, Geo()) && Unused(s, b) && b < FSSIZE && IsInode(s, inum) && j < NINDIRECT
    requires s.inode[inum].addrs[NDIRECT] != 0 && Addr(s, Slot(inum, NDIRECT + 1 + j)) == 0
    ensures s.inode[inum].addrs[NDIRECT] < |s.block|
    ensures
      var s' := WithEntry(s, inum, j, b);
      && Gives(s, s', inum, Slot(inum, NDIRECT + 1 + j)) && Unused(s', b + 1)
      && Addr(s', Slot(inum, NDIRECT + 1 + j)) == b
  {
    hide Word, PutWord, Bit, SetBit, Content, Addr, Owned;
    IndirectBlock(s, inum);
    var s' := WithEntry(s, inum, j, b);
    EntryOwned(s, Geo(), inum, j, b);
    EntryContent(s, Geo(), inum, j, b);
    UnusedMore(s.bitmap, b);
    forall t | IsSlot(s, t) ensures Addr(s', t) == if t == Slot(inum, NDIRECT + 1 + j) then b else Addr(s, t) {
      EntryAddr(s, Geo(), inum, j, b, t);
    }
  }

  // The finished image

  /** Rounding up the size of the root directory leaves the file system without holes exactly when the
      size was no multiple of a block; what it adds to the directory then is zeros. */
  lemma RoundedRoot(s: State, freeblock: nat)
    requires Owned(s, Geo()) && IsInode(s, ROOT) && forall j: nat | IsInode(s, j) :: Tidy(s, j)
    ensures
      var size := s.inode[ROOT].size;
      var s' := Resize(s, ROOT, (size / BSIZE + 1) * BSIZE);
      && Owned(s', Geo()) && size <= MAXFILE * BSIZE
      && (AllHoleFree(s') <==> size % BSIZE != 0)
      && (size % BSIZE != 0 ==> IsFile(s', ROOT, File(s, ROOT) + seq(BSIZE - size % BSIZE, _ => 0)))
      && forall j: nat, f | j != ROOT && IsFile(s, j, f) :: IsFile(s', j, f)
  {
    hide Owned, Tidy, File, Content, Addr;
    var size := s.inode[ROOT].size;
    var s' := Resize(s, ROOT, (size / BSIZE + 1) * BSIZE);
    ResizeOwned(s, Geo(), ROOT, s'.inode[ROOT].size);
    RootHole(s, s');
    if size % BSIZE != 0 {
      forall j | IsInode(s', j) ensures HoleFree(s', j) {
        if j != ROOT {
          SameHoles(s, s', j);
        }
      }
      RootBytes(s, s');
    }
    forall j: nat, f | j != ROOT && IsFile(s, j, f) ensures IsFile(s', j, f) {
      SameBytes(s, s', j);
    }
  }

  lemma RootHole(s: State, s': State)
    requires IsInode(s, ROOT) && Tidy(s, ROOT) && s' == Resize(s, ROOT, (s.inode[ROOT].size / BSIZE + 1) * BSIZE)
    ensures s.inode[ROOT].size <= MAXFILE * BSIZE && IsInode(s', ROOT) && (HoleFree(s', ROOT) <==> s.inode[ROOT].size % BSIZE != 0)
  {
    hide Addr, Content;
    var size, bn := s.inode[ROOT].size, s.inode[ROOT].size / BSIZE;
    assert size == BSIZE * bn + size % BSIZE;
    forall c | 0 <= c < MAXFILE ensures DataAddr(s', ROOT, c) == DataAddr(s, ROOT, c) {
      ResizeAddr(s, ROOT, s'.inode[ROOT].size, DataSlot(ROOT, c));
    }
    if size % BSIZE == 0 && bn < MAXFILE {
      assert DataAddr(s, ROOT, bn) == 0 && bn * BSIZE < s'.inode[ROOT].size;
      assert DataAddr(s', ROOT, bn) == 0;
    }
  }

  lemma SameHoles(s: State, s': State, j: nat)
    requires IsInode(s, ROOT) && j != ROOT && IsInode(s', ROOT) && IsInode(s', j) && IsInode(s, j) && Tidy(s, j)
    requires s' == Resize(s, ROOT, s'.inode[ROOT].size)
    ensures HoleFree(s', j)
  {
    hide Addr, Content;
    forall c | 0 <= c < MAXFILE && c * BSIZE < s'.inode[j].size ensures DataAddr(s', j, c) != 0 {
      ResizeAddr(s, ROOT, s'.inode[ROOT].size, DataSlot(j, c));
      assert DataAddr(s, j, c) != 0;
    }
  }

  lemma SameBytes(s: State, s': State, j: nat)
    requires IsInode(s, ROOT) && j != ROOT && IsInode(s, j) && |s'.inode| > ROOT
    requires s' == Resize(s, ROOT, s'.inode[ROOT].size)
    requires s.inode[j].size <= MAXFILE * BSIZE
    ensures IsInode(s', j) && s'.inode[j].size == s.inode[j].size && File(s', j) == File(s, j)
  {
    hide Addr, Content;
    forall i | 0 <= i < s.inode[j].size ensures Content(s', j, i) == Content(s, j, i) {
      ResizeContent(s, ROOT, s'.inode[ROOT].size, j, i);
    }
  }

  lemma RootBytes(s: State, s': State)
    requires IsInode(s, ROOT) && Tidy(s, ROOT) && s.inode[ROOT].size % BSIZE != 0
    requires s' == Resize(s, ROOT, (s.inode[ROOT].size / BSIZE + 1) * BSIZE) && IsInode(s', ROOT) && HoleFree(s', ROOT)
    ensures
      s.inode[ROOT].size <= MAXFILE * BSIZE
      && IsFile(s', ROOT, File(s, ROOT) + seq(BSIZE - s.inode[ROOT].size % BSIZE, _ => 0))
  {
    hide Addr, Content;
    var size := s.inode[ROOT].size;
    assert size == BSIZE * (size / BSIZE) + size % BSIZE;
    var f := File(s, ROOT) + seq(BSIZE - size % BSIZE, _ => 0);
    assert |f| == s'.inode[ROOT].size;
    forall i | 0 <= i < |f| ensures File(s', ROOT)[i] == f[i] {
      ResizeContent(s, ROOT, s'.inode[ROOT].size, ROOT, i);
    }
  }

  /** Ownership asks for nothing but the bits of the free map. */
  lemma OwnedBits(s: State, s': State, freeblock: nat)
    requires Owned(s, Geo()) && Unused(s, freeblock) && FirstBits(s'.bitmap, freeblock) && s' == s.(bitmap := s'.bitmap)
    ensures Owned(s', Geo()) && Unused(s', freeblock)
    ensures forall j: nat, f | IsFile(s, j, f) :: IsFile(s', j, f)
    ensures AllHoleFree(s') <==> AllHoleFree(s)
  {
    hide Bit, Word;
    forall t | IsSlot(s', t) ensures SlotOk(s', Geo(), t) {
      assert SlotOk(s, Geo(), t);
    }
    forall b | b in s'.owner ensures OwnerOk(s', b) {
      assert OwnerOk(s, b);
    }
    forall j: nat | IsInode(s, j) ensures HoleFree(s', j) <==> HoleFree(s, j) {
      forall c | 0 <= c < MAXFILE ensures DataAddr(s', j, c) == DataAddr(s, j, c) {
      }
    }
  }

  /** Every inode of the image fits its place on disk. */
  lemma ImageStorable(s: State, s1: State)
    requires Owned(s, Geo()) && IsInode(s, ROOT) && forall j: nat | IsInode(s, j) :: Tidy(s, j)
    requires s1 == Resize(s, ROOT, (s.inode[ROOT].size / BSIZE + 1) * BSIZE)
    ensures forall j | 0 <= j < |s1.inode| :: Storable(s1.inode[j])
  {
    hide Owned, Addr, Content;
    AllPlaces(s);
    forall j | 0 <= j < |s1.inode| ensures Storable(s1.inode[j]) {
      assert IsInode(s, j) && Tidy(s, j);
      FitsDinode(s, Geo(), j, s.inode[j].size);
      assert s.inode[j].(size := s.inode[j].size) == s.inode[j];
    }
  }

  lemma ImageLaidOut(v: Volume)
    requires |v.bitmap| == BSIZE && |v.inode| == IPB * NINODEBLOCKS && |v.block| == FSSIZE
    ensures Transactions.LaidOut(Geo(), Recovery.Region(2, NLOG), v)
  {
  }

  /** main: the root directory, the files, and the free map.  The kernel's view of the image owns its
      blocks; inode 1 is a directory, and the inodes from 2 on are plain files, which read back as what was
      put in.  The root directory reads back as its entries and
      zeros, unless they fill whole blocks: then it has a hole.  It succeeds exactly when the files fit. */
  method Build(names: seq<seq<byte>>, contents: seq<seq<seq<byte>>>) returns (ok: bool, fs: Fs, ghost freeblock: nat)
    requires |names| == |contents|
    ensures ok <==> Fits(contents, |names|)
    ensures ok ==> freeblock == NMETA + Need(DIRENT * (|names| + 2)) + FileBlocks(contents, |names|)
    ensures ok ==>
              && fs.g == Geo() && fs.dinode == fs.inode && Owned(fs.S(), Geo()) && FirstBits(fs.bitmap, freeblock)
              && NMETA <= freeblock <= FSSIZE && Kinds(fs.S(), |names|)
              && forall k | 0 <= k < |names| :: IsFile(fs.S(), k + 2, Joined(contents[k], |contents[k]|))
    ensures ok ==> Transactions.LaidOut(Geo(), Recovery.Region(2, NLOG), fs.Now()) && |fs.dinode| == IPB * NINODEBLOCKS
    ensures ok ==> forall j | 0 <= j < |fs.dinode| :: Storable(fs.dinode[j])
    ensures ok ==>
              var root := RootText(names, |names|);
              if |root| % BSIZE != 0 then fs.Valid() && IsFile(fs.S(), ROOT, root + seq(BSIZE - |root| % BSIZE, _ => 0))
              else !AllHoleFree(fs.S())
  {
    hide Owned, Unused, Tidy, File, Dirent, Built, Kinds, AllHoleFree, FirstBits, Need, Joined, RootText, Transactions.LaidOut, Leads, Fits;
    ghost var empty := SomeBits(NMETA);
    var b := new Builder(empty);
    fs := new Fs(Geo(), [], [], [], map[]);
    freeblock := 0;
    FitsNone(contents);
    ok := AddRoot(b, names, contents);
    for i := 0 to |names|
      invariant b.Valid() && b.freeinode == i + 2 && Built(b.S(), names, contents, i) && fresh(b)
      invariant b.freeblock == NMETA + Need(DIRENT * (i + 2)) + FileBlocks(contents, i) && Fits(contents, i)
    {
      ok := b.AddFile(names, contents, i);
      if !ok {
        if Fits(contents, |names|) {
          FitsLess(contents, i + 1, |names|);
        }
        return;
      }
    }
    ghost var s := b.S();
    UnusedRange(s, b.freeblock);
    b.RoundRoot();
    freeblock := b.freeblock;
    var bits;
    ok, bits := Balloc(b.freeblock);
    Finished(s, b.S(), bits, freeblock, names, contents);
    ImageLaidOut(Volume(bits, b.dinode, b.block));
    ImageStorable(s, b.S());
    fs := new Fs(Geo(), bits, b.dinode, b.block, b.owner);
  }

  /** The root directory with its two first entries. */
  method AddRoot(b: Builder, ghost names: seq<seq<byte>>, ghost contents: seq<seq<seq<byte>>>) returns (ok: bool)
    requires b.Valid() && b.freeinode == 1 && |names| == |contents| && b.dinode[0] == EmptyInode() && b.freeblock == NMETA
    modifies b
    ensures ok && b.Valid() && b.freeinode == 2 && Built(b.S(), names, contents, 0)
    ensures b.freeblock == NMETA + Need(2 * DIRENT)
  {
    hide Owned, Unused, Tidy, File, Dirent, Kinds;
    var rootino;
    ok, rootino := b.Ialloc(T_DIR);
    if !ok || rootino != ROOT {
      return false;
    }
    ghost var s := b.S();
    AllPlaces(s);
    NoBytes(s, ROOT);
    OneDir(s);
    ok := b.Iappend(ROOT, Dirent(DOT, ROOT));
    if !ok {
      return;
    }
    ghost var s1 := b.S();
    AllPlaces(s1);
    SameKinds(s, s1, ROOT, 0);
    ok := b.Iappend(ROOT, Dirent(DOTDOT, ROOT));
    SameKinds(s1, b.S(), ROOT, 0);
    assert [] + Dirent(DOT, ROOT) == Dirent(DOT, ROOT);
  }

  lemma OneDir(s: State)
    requires |s.inode| > 1 && s.inode[1] == EmptyInode().(typ := 1, nlink := 1)
    requires forall j | 0 <= j < |s.inode| && j != 1 :: s.inode[j] == EmptyInode()
    ensures Kinds(s, 0)
  {
  }

  lemma NoBytes(s: State, j: nat)
    requires IsInode(s, j) && s.inode[j].size == 0
    ensures File(s, j) == []
  {
  }

  lemma Finished(s: State, s1: State, bits: seq<bv8>, freeblock: nat, names: seq<seq<byte>>, contents: seq<seq<seq<byte>>>)
    requires Owned(s, Geo()) && Unused(s, freeblock) && IsInode(s, ROOT) && (forall j: nat | IsInode(s, j) :: Tidy(s, j))
    requires |names| == |contents| && Built(s, names, contents, |names|) && FirstBits(bits, freeblock)
    requires s1 == Resize(s, ROOT, (s.inode[ROOT].size / BSIZE + 1) * BSIZE)
    ensures
      var s2, root := s1.(bitmap := bits), RootText(names, |names|);
      && Owned(s2, Geo()) && Kinds(s2, |names|) && NMETA <= freeblock <= FSSIZE && |bits| == BSIZE && |s1.inode| == |s.inode| && |s1.block| == FSSIZE
      && (forall k | 0 <= k < |names| :: IsFile(s2, k + 2, Joined(contents[k], |contents[k]|)))
      && if |root| % BSIZE != 0 then AllHoleFree(s2) && IsFile(s2, ROOT, root + seq(BSIZE - |root| % BSIZE, _ => 0)) else !AllHoleFree(s2)
  {
    hide Owned, Tidy, File, AllHoleFree, Kinds;
    RoundedRoot(s, freeblock);
    SameKinds(s, s1.(bitmap := bits), ROOT, |names|);
    OwnedBits(s1, s1.(bitmap := bits), freeblock);
    assert |File(s, ROOT)| == s.inode[ROOT].size;
  }
}
