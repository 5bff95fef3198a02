/** Reading and writing through an open file: fileread and filewrite of kern/file.c. */
module OpenFiles {
  import opened Layout
  import opened Blocks
  import opened Files
  import opened Updates
  import Disk

  /** The largest write of one transaction. */
  const CHUNK: nat := (Disk.MAXOPBLOCKS - 1 - 1 - 2) / 2 * 512

  class File {
    const fs: Fs
    const inum: nat
    const readable: bool
    const writable: bool
    var off: nat

    constructor (fs: Fs, inum: nat, readable: bool, writable: bool)
      ensures this.fs == fs && this.inum == inum && this.readable == readable && this.writable == writable && off == 0
    {
      this.fs := fs;
      this.inum := inum;
      this.readable := readable;
      this.writable := writable;
      this.off := 0;
    }

    ghost predicate Ready()
      reads this, fs
    {
      && fs.Valid() && IsInode(fs.S(), inum) && fs.inode[inum].typ != T_DEV && off < SIZE_T
    }

    /** Reads at the file offset and advances it by what was read. */
    method Fileread(n: nat) returns (r: int, data: seq<byte>)
      requires Ready() && n < SIZE_T
      modifies this`off, fs`bitmap, fs`block, fs`inode, fs`updates, fs`logged, fs`owner
      ensures fs.S() == old(fs.S()) && fs.dinode == old(fs.dinode)
      ensures !readable ==> r == -1 && off == old(off)
      ensures IsInode(fs.S(), inum) && fs.inode[inum].size <= MAXFILE * BSIZE
      ensures readable ==>
                var f := Files.File(fs.S(), inum);
                if old(off) > |f| || old(off) + n >= SIZE_T then r == -1 && off == old(off)
                else r == |data| && data == f[old(off)..Min(old(off) + n, |f|)] && off == old(off) + |data|
    {
      hide Owned;
      assert HoleFree(fs.S(), inum);
      if !readable {
        return -1, [];
      }
      r, data := fs.Readi(inum, off, n);
      if r > 0 {
        off := off + r;
      }
    }

    /** One transaction of filewrite.  Not ok is balloc's panic on a full disk. */
    method WriteChunk(chunk: seq<byte>) returns (ok: bool, r: int)
      requires Ready() && |chunk| <= CHUNK && off + |chunk| < SIZE_T
      modifies this`off, fs`bitmap, fs`block, fs`inode, fs`dinode, fs`updates, fs`logged, fs`base, fs`owner
      ensures ok ==> Ready() && fs.base == old(fs.Now()) && fs.Now() == AfterAll(old(fs.Now()), fs.updates) && Fits(fs.g, BlocksOf(fs.g, fs.updates))
      ensures ok && (old(off) > old(fs.inode[inum]).size || old(off) + |chunk| > MAXFILE * BSIZE) ==>
                r == -1 && fs.S() == old(fs.S()) && off == old(off) && fs.updates == []
      ensures ok && old(off) <= old(fs.inode[inum]).size && old(off) + |chunk| <= MAXFILE * BSIZE ==>
                && r == |chunk| && off == old(off) + |chunk|
                && WroteFile(old(fs.S()), fs.S(), inum, old(off), chunk)
                && fs.inode[inum].size >= off && Took(old(fs.S()), fs.S(), fs.g, inum, old(off), |chunk|)
      ensures !ok ==> DiskFull(fs) && off == old(off)
      ensures ok <==>
                || old(off) > old(fs.inode[inum]).size || old(off) + |chunk| > MAXFILE * BSIZE
                || Lacking(old(fs.S()), inum, old(off), |chunk|) <= Spare(old(fs.S()), fs.g)
    {
      hide Owned, Bounded, WroteFile, AllHoleFree, Fits, Leads, Spare, LackingBetween, TakesBlocks;
      fs.Begin();
      NothingFits(fs.g);
      ghost var s := fs.S();
      ghost var touched;
      ok, r, touched := fs.Writei(inum, chunk, off);
      if ok && r >= 0 {
        ChunkFits(fs.g, touched, fs.logged, off, |chunk|);
        WroteSize(s, fs.S(), inum, off, chunk);
      }
      WhereLed(fs.g, fs.base, fs.updates, fs.Now(), fs.logged);
      if ok && r > 0 {
        off := off + r;
      }
    }

    /** filewrite has written `done` bytes; s0 is what it started from. */
    ghost predicate Writing(s0: State, off0: nat, addr: seq<byte>, done: nat)
      reads this, fs
    {
      && done <= |addr| && off == off0 + done && Ready() && IsInode(s0, inum)
      && (done % CHUNK == 0 || done == |addr|)
      && Progress(s0, fs.S(), inum, off0, addr, done)
      && (done > 0 ==> off0 <= s0.inode[inum].size && off <= fs.inode[inum].size && off <= MAXFILE * BSIZE)
      && (off0 + done <= MAXFILE * BSIZE ==> Took(s0, fs.S(), fs.g, inum, off0, done))
    }

    /** One turn of the loop of filewrite. */
    method WriteNext(addr: seq<byte>, done: nat, ghost s0: State, ghost off0: nat) returns (ok: bool, r: int)
      requires Writing(s0, off0, addr, done) && done < |addr| && off0 + |addr| < SIZE_T
      modifies this`off, fs`bitmap, fs`block, fs`inode, fs`dinode, fs`updates, fs`logged, fs`base, fs`owner
      ensures ok ==> Writing(s0, off0, addr, if r < 0 then done else done + r)
      ensures ok ==> fs.Now() == AfterAll(old(fs.Now()), fs.updates) && Fits(fs.g, BlocksOf(fs.g, fs.updates))
      ensures ok && r < 0 ==>
                if done == 0 then off0 > s0.inode[inum].size || off0 + Min(CHUNK, |addr|) > MAXFILE * BSIZE
                else off0 + done + Min(CHUNK, |addr| - done) > MAXFILE * BSIZE
      ensures ok && r < 0 ==> done % CHUNK == 0
      ensures ok && r >= 0 ==> r > 0
      ensures !ok ==> DiskFull(fs) && off == off0 + done && off0 <= s0.inode[inum].size
      ensures !ok ==> TooLong(s0, fs.g, inum, off0, done + Min(CHUNK, |addr| - done))
    {
      hide Owned, WroteFile, AllHoleFree, Progress, Fits, AfterAll, Leads, Lacking, Spare, DiskFull, BlocksOf, Took, TooLong;
      var n1 := Min(|addr| - done, CHUNK);
      ghost var s := fs.S();
      SameProgress(s0, s, inum, off0, addr, done);
      ok, r := WriteChunk(addr[done..done + n1]);
      if ok && r >= 0 {
        MoreProgress(s0, s, fs.S(), inum, off0, addr, done, n1);
        TookMore(s0, s, fs.S(), fs.g, inum, off0, done, n1);
      } else if !ok {
        TooMuch(s0, s, fs.g, inum, off0, done, n1);
      }
    }

    /** Writes addr at the file offset in transactions of at most CHUNK bytes each.  `done` bytes
        are in the file when it returns; the result is -1 unless they are all.  `txs` are the
        transactions.  Not ok is balloc's panic on a full disk. */
    method Filewrite(addr: seq<byte>) returns (ok: bool, r: int, done: nat, ghost txs: seq<seq<Update>>)
      requires Ready() && off + |addr| < SIZE_T
      modifies this`off, fs`bitmap, fs`block, fs`inode, fs`dinode, fs`updates, fs`logged, fs`base, fs`owner
      ensures !writable ==> ok && r == -1 && done == 0 && fs.S() == old(fs.S()) && off == old(off)
      ensures ok && writable ==> Ready() && Progress(old(fs.S()), fs.S(), inum, old(off), addr, done) && off == old(off) + done
      ensures ok && writable ==> r == if done == |addr| then |addr| else -1
      ensures ok && writable && done < |addr| ==>
                if old(off) > old(fs.inode[inum]).size then done == 0
                else done % CHUNK == 0 && old(off) + done + Min(CHUNK, |addr| - done) > MAXFILE * BSIZE
      ensures ok && writable && |addr| > 0 ==>
                (done == |addr| <==> old(off) <= old(fs.inode[inum]).size && old(off) + |addr| <= MAXFILE * BSIZE)
      ensures !ok ==> DiskFull(fs) && off == old(off) + done && old(off) <= old(fs.inode[inum]).size
      ensures !ok ==> done < |addr| && TooLong(old(fs.S()), fs.g, inum, old(off), done + Min(CHUNK, |addr| - done))
      ensures writable && old(off) + |addr| <= MAXFILE * BSIZE ==>
                (ok <==> old(off) > old(fs.inode[inum]).size || Lacking(old(fs.S()), inum, old(off), |addr|) <= Spare(old(fs.S()), fs.g))
      ensures forall t | t in txs :: Fits(fs.g, BlocksOf(fs.g, t))
      ensures ok ==> fs.Now() == AfterTransactions(old(fs.Now()), txs)
    {
      hide Owned, WroteFile, AllHoleFree, Progress, Fits, AfterAll, Leads, DiskFull, BlocksOf, Took, TooLong, Lacking, Spare;
      ok, r, done, txs := true, -1, 0, [];
      NoProgress(fs.S(), inum, off, addr);
      TookNothing(fs.S(), fs.g, inum, off);
      if !writable {
        return;
      }
      ghost var s0, off0, v0 := fs.S(), off, fs.Now();
      while done < |addr|
        invariant Writing(s0, off0, addr, done)
        invariant forall t | t in txs :: Fits(fs.g, BlocksOf(fs.g, t))
        invariant fs.Now() == AfterTransactions(v0, txs)
      {
        var rr;
        ok, rr := WriteNext(addr, done, s0, off0);
        if !ok {
          LongerToo(s0, fs.g, inum, off0, done + Min(CHUNK, |addr| - done), |addr|);
          return;
        }
        txs := txs + [fs.updates];
        assert txs[..|txs| - 1] + [fs.updates] == txs;
        if rr < 0 {
          break;
        }
        done := done + rr;
      }
      TookFits(s0, fs.S(), fs.g, inum, off0, done);
      r := if done == |addr| then |addr| else -1;
    }
  }

  /** Writing n bytes at an offset took the blocks that it lacked. */
  ghost predicate Took(s: State, s': State, g: Geometry, inum: nat, off: nat, n: nat)
    requires IsInode(s, inum)
  {
    off + n <= MAXFILE * BSIZE && WriteEnd(off, n) <= MAXFILE && TakesBlocks(s, s', g, inum, off / BSIZE, WriteEnd(off, n))
  }

  /** Writing n bytes at an offset lacks more blocks than are free. */
  ghost predicate TooLong(s: State, g: Geometry, inum: nat, off: nat, n: nat)
    requires IsInode(s, inum)
  {
    off + n <= MAXFILE * BSIZE && Lacking(s, inum, off, n) > Spare(s, g)
  }

  lemma TookNothing(s: State, g: Geometry, inum: nat, off: nat)
    requires IsInode(s, inum)
    ensures off <= MAXFILE * BSIZE ==> Took(s, s, g, inum, off, 0)
  {
    if off <= MAXFILE * BSIZE {
      TakesNone(s, g, inum, off / BSIZE);
    }
  }

  lemma Adjacent(off: nat, n: nat, m: nat)
    requires m > 0 && off + n + m <= MAXFILE * BSIZE
    ensures off / BSIZE <= (off + n) / BSIZE <= WriteEnd(off, n) <= WriteEnd(off, n + m) == WriteEnd(off + n, m) <= MAXFILE
  {
  }

  lemma TookMore(s: State, s1: State, s2: State, g: Geometry, inum: nat, off: nat, n: nat, m: nat)
    requires IsInode(s, inum) && IsInode(s1, inum) && m > 0
    requires off + n <= MAXFILE * BSIZE ==> Took(s, s1, g, inum, off, n)
    requires Took(s1, s2, g, inum, off + n, m)
    ensures Took(s, s2, g, inum, off, n + m)
  {
    hide TakesBlocks, Addr, WriteEnd;
    Adjacent(off, n, m);
    TakesJoin(s, s1, s2, g, inum, off / BSIZE, (off + n) / BSIZE, WriteEnd(off, n), WriteEnd(off, n + m));
  }

  lemma TooMuch(s: State, s1: State, g: Geometry, inum: nat, off: nat, n: nat, m: nat)
    requires IsInode(s, inum) && IsInode(s1, inum) && m > 0 && off + n + m <= MAXFILE * BSIZE
    requires Took(s, s1, g, inum, off, n) && Lacking(s1, inum, off + n, m) > Spare(s1, g)
    ensures TooLong(s, g, inum, off, n + m)
  {
    hide Addr, WriteEnd, LackingBetween, Spare;
    Adjacent(off, n, m);
    LackingSplit(s, s1, g, inum, off / BSIZE, (off + n) / BSIZE, WriteEnd(off, n), WriteEnd(off, n + m));
  }

  lemma LongerToo(s: State, g: Geometry, inum: nat, off: nat, n: nat, m: nat)
    requires IsInode(s, inum) && TooLong(s, g, inum, off, n) && n <= m
    ensures off + m <= MAXFILE * BSIZE ==> Lacking(s, inum, off, m) > Spare(s, g)
  {
    hide Addr, LackingBetween, Spare;
    if off + m <= MAXFILE * BSIZE {
      WriteRange(off, n);
      WriteRange(off, m);
      assert WriteEnd(off, n) <= WriteEnd(off, m);
      LackingGrows(s, inum, off / BSIZE, WriteEnd(off, n), WriteEnd(off, m));
    }
  }

  lemma TookFits(s: State, s': State, g: Geometry, inum: nat, off: nat, n: nat)
    requires IsInode(s, inum) && (off + n <= MAXFILE * BSIZE ==> Took(s, s', g, inum, off, n))
    ensures off + n <= MAXFILE * BSIZE ==> Lacking(s, inum, off, n) <= Spare(s, g)
  {
    hide Addr, LackingBetween, Spare;
  }

  /** What balloc's panic leaves in memory: every block is in use. */
  ghost predicate DiskFull(fs: Fs)
    reads fs
  {
    Owned(fs.S(), fs.g) && fs.Recorded() && forall k: nat | k < fs.g.size :: Bit(fs.bitmap, k)
  }

  /** What a transaction may log: MAXOPBLOCKS blocks, and 7 when the free map is one block. */
  ghost predicate Fits(g: Geometry, t: set<nat>) { |t| <= Disk.MAXOPBLOCKS && (g.size <= BPB ==> |t| <= 7) }

  /** The first `done` bytes of addr were written at off. */
  ghost predicate Progress(s: State, s': State, inum: nat, off: nat, addr: seq<byte>, done: nat)
    requires IsInode(s, inum)
  {
    done <= |addr| && if done == 0 then s' == s else WroteFile(s, s', inum, off, addr[..done])
  }

  lemma NoProgress(s: State, inum: nat, off: nat, addr: seq<byte>)
    requires IsInode(s, inum)
    ensures Progress(s, s, inum, off, addr, 0)
  {
  }

  lemma SameProgress(s: State, s': State, inum: nat, off: nat, addr: seq<byte>, done: nat)
    requires IsInode(s, inum) && Progress(s, s', inum, off, addr, done)
    ensures done == 0 ==> s' == s
  {
  }

  lemma MoreProgress(s: State, s1: State, s2: State, inum: nat, off: nat, addr: seq<byte>, done: nat, n: nat)
    requires IsInode(s, inum) && IsInode(s1, inum) && Progress(s, s1, inum, off, addr, done)
    requires n > 0 && done + n <= |addr| && WroteFile(s1, s2, inum, off + done, addr[done..done + n])
    ensures Progress(s, s2, inum, off, addr, done + n)
  {
    hide WroteFile;
    assert addr[..done] + addr[done..done + n] == addr[..done + n];
    if done == 0 {
      assert addr[done..done + n] == addr[..n];
    } else {
      WroteTwice(s, s1, s2, inum, off, addr[..done], addr[done..done + n]);
    }
  }

  lemma WroteSize(s: State, s': State, inum: nat, off: nat, src: seq<byte>)
    requires IsInode(s, inum) && WroteFile(s, s', inum, off, src)
    ensures IsInode(s', inum) && s'.inode[inum].size >= off + |src|
    ensures s'.inode[inum].typ == s.inode[inum].typ
  {
  }

  /** Two adjacent writes are one. */
  lemma WroteTwice(s: State, s1: State, s2: State, inum: nat, off: nat, a: seq<byte>, b: seq<byte>)
    requires IsInode(s, inum) && IsInode(s1, inum)
    requires WroteFile(s, s1, inum, off, a) && WroteFile(s1, s2, inum, off + |a|, b)
    ensures WroteFile(s, s2, inum, off, a + b)
  {
    hide Files.File;
    assert Splice(Splice(Files.File(s, inum), off, a), off + |a|, b) == Splice(Files.File(s, inum), off, a + b);
    forall j: nat | IsInode(s, j) && j != inum ensures s2.inode[j] == s.inode[j] {
      assert s1.inode[j] == s.inode[j] && IsInode(s1, j);
    }
  }

  /** A chunk stays within what begin_op reserves for one operation. */
  lemma ChunkFits(g: Geometry, touched: set<nat>, logged: set<nat>, off: nat, n: nat)
    requires n <= CHUNK && Bounded(g, touched, off, n) && logged <= touched
    ensures Fits(g, logged)
  {
    assert touched == logged + (touched - logged);
    if n > 0 {
      SpanOfChunk(off, n);
    }
  }

  lemma NothingFits(g: Geometry)
    ensures Fits(g, {})
  {
  }

  lemma SpanOfChunk(off: nat, n: nat)
    requires 0 < n <= CHUNK
    ensures BlockSpan(off, n) <= 3 + Partial(off)
  {
    var q, r := off / BSIZE, off % BSIZE;
    assert off == BSIZE * q + r;
    assert off + n - 1 < BSIZE * (q + 3 + Partial(off));
    assert (off + n - 1) / BSIZE < q + 3 + Partial(off);
  }
}
