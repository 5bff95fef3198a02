/** File system transactions on the card: the blocks of kern/fs.c as bytes, what log_write and commit
    make of the updates of an operation, and what a power failure leaves of them. */
module Transactions {
  import opened Layout
  import opened Blocks
  import opened Updates
  import opened Disk
  import opened Recovery
  import BufferCache
  import Log
  import F = Files
  import OpenFiles
  import Directories
  import opened Options

  // Inodes and the free map as bytes

  const DINODEWORDS: nat := NDIRECT + 4

  /** The words of struct dinode. */
  function InodeWords(n: Inode): (ws: seq<u32>)
    requires Storable(n)
    ensures |ws| == DINODEWORDS
  {
    [n.typ + 0x1_0000 * n.major, n.minor + 0x1_0000 * n.nlink, n.size] + n.addrs
  }

  function InodeOf(ws: seq<u32>): Inode
    requires |ws| == DINODEWORDS
  {
    Inode(ws[0] % 0x1_0000, ws[0] / 0x1_0000, ws[1] % 0x1_0000, ws[1] / 0x1_0000, ws[2], ws[3..])
  }

  /** The k-th inode of an inode block. */
  function InodeAt(b: Block, k: nat): Inode
    requires k < IPB
  {
    InodeOf(Words(b, DINODEWORDS * k, DINODEWORDS))
  }

  function PutInode(b: Block, k: nat, n: Inode): Block
    requires k < IPB && Storable(n)
  {
    PutWords(b, DINODEWORDS * k, InodeWords(n))
  }

  /** An inode that was stored is read back, and the others of its block are kept. */
  lemma PutThenInode(b: Block, k: nat, n: Inode, i: nat)
    requires k < IPB && i < IPB && Storable(n)
    ensures InodeAt(PutInode(b, k, n), i) == if i == k then n else InodeAt(b, i)
  {
    hide Word, PutWords, Words;
    PutWordsRead(b, DINODEWORDS * k, InodeWords(n), DINODEWORDS * i);
    assert InodeOf(InodeWords(n)).addrs == n.addrs;
  }

  // A volume on a card

  /** The superblock's regions follow one another: the log, the inodes, the free map, the data. */
  ghost predicate LaidOut(g: Geometry, r: Region, v: Volume) {
    && r.start + r.size <= g.inodestart <= g.bmapstart <= g.nmeta <= g.size == |v.block| && g.size + MBR_BASE <= 0x1_0000_0000
    && (forall j | 0 <= j < |v.inode| :: InodeBlock(g, j) < g.bmapstart)
    && (forall i | 0 <= i < |v.bitmap| :: i / BSIZE + g.bmapstart < g.nmeta)
  }

  /** The blocks of the card say what the volume is. */
  ghost predicate Stored(d: Image, g: Geometry, v: Volume) {
    && (forall i | 0 <= i < |v.bitmap| :: BitsStored(d, g, v, i))
    && (forall j | 0 <= j < |v.inode| :: InodeStored(d, g, v, j))
    && (forall b | g.nmeta <= b < |v.block| :: BlockStored(d, v, b))
  }

  ghost predicate BlockStored(d: Image, v: Volume, b: nat)
    requires b < |v.block|
  {
    b + MBR_BASE < |d| && d[b + MBR_BASE] == v.block[b]
  }

  ghost predicate BitsStored(d: Image, g: Geometry, v: Volume, i: nat)
    requires i < |v.bitmap|
  {
    i / BSIZE + g.bmapstart + MBR_BASE < |d| && FromByte(d[i / BSIZE + g.bmapstart + MBR_BASE][i % BSIZE]) == v.bitmap[i]
  }

  ghost predicate InodeStored(d: Image, g: Geometry, v: Volume, j: nat)
    requires j < |v.inode|
  {
    InodeBlock(g, j) + MBR_BASE < |d| && InodeAt(d[InodeBlock(g, j) + MBR_BASE], j % IPB) == v.inode[j]
  }

  /** A card holds one volume: the free map, the inodes and the data blocks can be read back from it. */
  lemma StoredOnce(d: Image, g: Geometry, v: Volume, v': Volume)
    requires Stored(d, g, v) && Stored(d, g, v')
    requires |v'.bitmap| == |v.bitmap| && |v'.inode| == |v.inode| && |v'.block| == |v.block|
    ensures v'.bitmap == v.bitmap && v'.inode == v.inode && forall b | g.nmeta <= b < |v.block| :: v'.block[b] == v.block[b]
  {
    forall i | 0 <= i < |v.bitmap| ensures v'.bitmap[i] == v.bitmap[i] {
      assert BitsStored(d, g, v, i) && BitsStored(d, g, v', i);
    }
    forall b | g.nmeta <= b < |v.block| ensures v'.block[b] == v.block[b] {
      assert BlockStored(d, v, b) && BlockStored(d, v', b);
    }
    forall j | 0 <= j < |v.inode| ensures v'.inode[j] == v.inode[j] {
      assert InodeStored(d, g, v, j) && InodeStored(d, g, v', j);
    }
  }

  /** A volume is outside the log, so it is there for all images that agree outside the log. */
  lemma StoredHome(a: Image, d: Image, g: Geometry, r: Region, v: Volume)
    requires SameHome(a, d, r) && Stored(d, g, v) && LaidOut(g, r, v)
    ensures Stored(a, g, v)
  {
    hide InodeAt, InodeBlock;
    forall i | 0 <= i < |v.bitmap| ensures BitsStored(a, g, v, i) {
      assert BitsStored(d, g, v, i) && !InLog(r, i / BSIZE + g.bmapstart + MBR_BASE);
    }
    forall j | 0 <= j < |v.inode| ensures InodeStored(a, g, v, j) {
      InodesBehindLog(g, j);
      assert InodeStored(d, g, v, j) && !InLog(r, InodeBlock(g, j) + MBR_BASE);
    }
    forall c | g.nmeta <= c < |v.block| ensures BlockStored(a, v, c) {
      assert BlockStored(d, v, c) && !InLog(r, c + MBR_BASE);
    }
  }

  lemma InodesBehindLog(g: Geometry, j: nat)
    ensures InodeBlock(g, j) >= g.inodestart
  {
  }

  // log_write and commit

  /** A buffer after an update. */
  function Rewritten(data: Block, u: Update): Block
    requires u.SetInode? ==> Storable(u.n)
  {
    match u
    case SetByte(i, x) => data[i % BSIZE := ToByte(x)]
    case SetInode(inum, n) => PutInode(data, inum % IPB, n)
    case SetBlock(_, x) => x
  }

  lemma ByteStored(d: Image, g: Geometry, r: Region, v: Volume, i: nat, x: bv8)
    requires Stored(d, g, v) && LaidOut(g, r, v) && i < |v.bitmap|
    ensures i / BSIZE + g.bmapstart + MBR_BASE < |d|
    ensures
      var t := i / BSIZE + g.bmapstart + MBR_BASE;
      Stored(d[t := d[t][i % BSIZE := ToByte(x)]], g, v.(bitmap := v.bitmap[i := x]))
  {
    hide InodeAt, InodeBlock, FromByte, ToByte;
    assert BitsStored(d, g, v, i);
    var t := i / BSIZE + g.bmapstart + MBR_BASE;
    var d', v' := d[t := d[t][i % BSIZE := ToByte(x)]], v.(bitmap := v.bitmap[i := x]);
    ByteKeepsBits(x);
    forall k | 0 <= k < |v'.bitmap| ensures BitsStored(d', g, v', k) {
      assert BitsStored(d, g, v, k);
      if k / BSIZE == i / BSIZE && k % BSIZE == i % BSIZE {
        SameByte(k, i);
      }
    }
    forall j | 0 <= j < |v'.inode| ensures InodeStored(d', g, v', j) {
      assert InodeStored(d, g, v, j);
    }
    forall c | g.nmeta <= c < |v'.block| ensures BlockStored(d', v', c) {
      assert BlockStored(d, v, c);
    }
  }

  lemma SameByte(k: nat, i: nat)
    requires k / BSIZE == i / BSIZE && k % BSIZE == i % BSIZE
    ensures k == i
  {
  }

  lemma InodeStoredNow(d: Image, g: Geometry, r: Region, v: Volume, inum: nat, n: Inode)
    requires Stored(d, g, v) && LaidOut(g, r, v) && inum < |v.inode| && Storable(n)
    ensures InodeBlock(g, inum) + MBR_BASE < |d|
    ensures
      var t := InodeBlock(g, inum) + MBR_BASE;
      Stored(d[t := PutInode(d[t], inum % IPB, n)], g, v.(inode := v.inode[inum := n]))
  {
    hide InodeAt, PutInode, FromByte, Storable;
    assert InodeStored(d, g, v, inum);
    var t := InodeBlock(g, inum) + MBR_BASE;
    var d', v' := d[t := PutInode(d[t], inum % IPB, n)], v.(inode := v.inode[inum := n]);
    forall j | 0 <= j < |v'.inode| ensures InodeStored(d', g, v', j) {
      assert InodeStored(d, g, v, j);
      PutThenInode(d[t], inum % IPB, n, j % IPB);
      assert j == IPB * (j / IPB) + j % IPB && inum == IPB * (inum / IPB) + inum % IPB;
    }
    forall k | 0 <= k < |v'.bitmap| ensures BitsStored(d', g, v', k) {
      assert BitsStored(d, g, v, k);
    }
    forall c | g.nmeta <= c < |v'.block| ensures BlockStored(d', v', c) {
      assert BlockStored(d, v, c);
    }
  }

  lemma BlockStoredNow(d: Image, g: Geometry, r: Region, v: Volume, b: nat, x: Block)
    requires Stored(d, g, v) && LaidOut(g, r, v) && g.nmeta <= b < |v.block|
    ensures b + MBR_BASE < |d| && Stored(d[b + MBR_BASE := x], g, v.(block := v.block[b := x]))
  {
    hide InodeAt, FromByte, InodeBlock;
    assert BlockStored(d, v, b);
    var d', v' := d[b + MBR_BASE := x], v.(block := v.block[b := x]);
    forall j | 0 <= j < |v'.inode| ensures InodeStored(d', g, v', j) {
      assert InodeStored(d, g, v, j);
    }
    forall k | 0 <= k < |v'.bitmap| ensures BitsStored(d', g, v', k) {
      assert BitsStored(d, g, v, k);
    }
    forall c | g.nmeta <= c < |v'.block| ensures BlockStored(d', v', c) {
      assert BlockStored(d, v, c);
    }
  }

  /** An update of one buffer is an update of the volume. */
  lemma StoredAfter(d: Image, g: Geometry, r: Region, v: Volume, u: Update)
    requires Stored(d, g, v) && LaidOut(g, r, v) && Applies(g, v, u)
    ensures BlockOf(g, u) + MBR_BASE < |d| && !InLog(r, BlockOf(g, u) + MBR_BASE) && BlockOf(g, u) < g.size
    ensures Stored(d[BlockOf(g, u) + MBR_BASE := Rewritten(d[BlockOf(g, u) + MBR_BASE], u)], g, After(v, u))
    ensures LaidOut(g, r, After(v, u))
  {
    match u
    case SetByte(i, x) => ByteStored(d, g, r, v, i, x);
    case SetInode(inum, n) => InodeStoredNow(d, g, r, v, inum, n);
    case SetBlock(b, data) => BlockStoredNow(d, g, r, v, b, data);
  }

  ghost function SectorsOf(blocks: set<nat>): set<nat> { set b | b in blocks :: b + MBR_BASE }

  /** The cache holds a volume, and no buffer is in use. */
  ghost predicate InStep(log: Log.Log, g: Geometry, v: Volume)
    reads log, log.cache, log.cache.disk
  {
    log.Valid() && log.cache.Locked() == {} && LaidOut(g, log.region, v) && Stored(log.cache.view, g, v)
  }

  /** bread, the change, log_write and brelse of one block.  Not ok is a panic: the cache or the log is
      full.  The card does not change. */
  method LogUpdate(log: Log.Log, g: Geometry, u: Update, ghost v: Volume) returns (ok: bool)
    requires InStep(log, g, v) && Applies(g, v, u)
    modifies log`n, log`block, log.cache, log.cache.disk
    ensures log.cache.disk.sector == old(log.cache.disk.sector) && log.cache.disk.history == old(log.cache.disk.history)
    ensures ok ==> InStep(log, g, After(v, u)) && log.Logged() == old(log.Logged()) + {BlockOf(g, u) + MBR_BASE}
    ensures old(log.cache.Quiet()) && ok ==> log.cache.Quiet()
    ensures old(log.cache.Quiet()) && old(log.n) < LOGSIZE && old(log.n) < log.region.size - 1 ==> ok
  {
    hide Stored, LaidOut, BufferCache.CacheOk, BufferCache.ListOk, BufferCache.DirtySet, BufferCache.LockedSet, Rewritten, Word;
    StoredAfter(log.cache.view, g, log.region, v, u);
    log.LoggedSize();
    var b;
    ok, b := log.cache.Bread(ROOTDEV, BlockOf(g, u));
    if ok {
      ok := log.LogRewrite(b, BlockOf(g, u) + MBR_BASE, Rewritten(log.cache.buf[b].data, u));
    }
  }

  lemma LoggedMore(logged: set<nat>, g: Geometry, us: seq<Update>, i: nat, now: set<nat>)
    requires i < |us| && now == logged + SectorsOf(BlocksOf(g, us[..i]))
    ensures now + {BlockOf(g, us[i]) + MBR_BASE} == logged + SectorsOf(BlocksOf(g, us[..i + 1]))
    ensures |now| <= |logged + SectorsOf(BlocksOf(g, us))|
  {
    hide BlocksOf, BlockOf;
    BlocksMore(g, us, i);
    var all := logged + SectorsOf(BlocksOf(g, us));
    assert all == now + (all - now);
  }

  /** i updates were passed to log_write; v and logged are what it started from. */
  ghost predicate Logging(log: Log.Log, g: Geometry, us: seq<Update>, i: nat, v: Volume, logged: set<nat>)
    requires i <= |us|
    reads log, log.cache, log.cache.disk
  {
    InStep(log, g, AfterAll(v, us[..i])) && log.Logged() == logged + SectorsOf(BlocksOf(g, us[..i]))
  }

  method LogNext(log: Log.Log, g: Geometry, us: seq<Update>, i: nat, ghost v: Volume, ghost logged: set<nat>) returns (ok: bool)
    requires i < |us| && Logging(log, g, us, i, v, logged) && Applies(g, v, us[i])
    modifies log`n, log`block, log.cache, log.cache.disk
    ensures log.cache.disk.sector == old(log.cache.disk.sector) && log.cache.disk.history == old(log.cache.disk.history)
    ensures ok ==> Logging(log, g, us, i + 1, v, logged)
    ensures old(log.cache.Quiet()) && ok ==> log.cache.Quiet()
    ensures old(log.cache.Quiet()) && RoomToLog(logged + SectorsOf(BlocksOf(g, us)), log.region) ==> ok
  {
    hide InStep, AfterAll, BlocksOf, BlockOf, SectorsOf, After;
    LoggedMore(logged, g, us, i, log.Logged());
    ListedInStep(log, g, AfterAll(v, us[..i]));
    AfterMore(v, us, i);
    ok := LogUpdate(log, g, us[i], AfterAll(v, us[..i]));
  }

  /** The log has room for some blocks, and log_write's guard leaves them pass. */
  ghost predicate RoomToLog(blocks: set<nat>, r: Region) { |blocks| < LOGSIZE && |blocks| < r.size - 1 }

  /** The updates of an operation, one after another.  It succeeds if the log has room for all of them. */
  method LogAll(log: Log.Log, g: Geometry, us: seq<Update>, ghost v: Volume) returns (ok: bool)
    requires InStep(log, g, v) && forall u | u in us :: Applies(g, v, u)
    modifies log`n, log`block, log.cache, log.cache.disk
    ensures log.cache.disk.sector == old(log.cache.disk.sector) && log.cache.disk.history == old(log.cache.disk.history)
    ensures ok ==> InStep(log, g, AfterAll(v, us)) && log.Logged() == old(log.Logged()) + SectorsOf(BlocksOf(g, us))
    ensures old(log.cache.Quiet()) && ok ==> log.cache.Quiet()
    ensures old(log.cache.Quiet()) && RoomToLog(old(log.Logged()) + SectorsOf(BlocksOf(g, us)), log.region) ==> ok
  {
    hide InStep, AfterAll, BlocksOf, BlockOf, SectorsOf, RoomToLog, Applies;
    ok := true;
    ghost var logged := log.Logged();
    NoBlocks(g, v, us);
    for i := 0 to |us|
      invariant log.cache.disk.sector == old(log.cache.disk.sector) && log.cache.disk.history == old(log.cache.disk.history)
      invariant Logging(log, g, us, i, v, logged)
      invariant old(log.cache.Quiet()) ==> log.cache.Quiet()
    {
      ok := LogNext(log, g, us, i, v, logged);
      if !ok {
        return;
      }
    }
    assert us[..|us|] == us;
  }

  lemma ListedInStep(log: Log.Log, g: Geometry, v: Volume)
    requires InStep(log, g, v)
    ensures |log.Logged()| == log.n
  {
    log.LoggedSize();
  }

  lemma NoBlocks(g: Geometry, v: Volume, us: seq<Update>)
    ensures AfterAll(v, us[..0]) == v && SectorsOf(BlocksOf(g, us[..0])) == {}
  {
  }

  // What a power failure leaves

  /** The blocks of a volume make up a file system: every block has one owner and no file a hole. */
  ghost predicate Sound(g: Geometry, v: Volume) {
    exists owner: map<nat, Slot> :: SoundWith(g, v, owner)
  }

  ghost predicate SoundWith(g: Geometry, v: Volume, owner: map<nat, Slot>) {
    Owned(State(v.bitmap, v.inode, v.block, owner), g) && F.AllHoleFree(State(v.bitmap, v.inode, v.block, owner))
  }

  lemma ValidIsSound(g: Geometry, s: State)
    requires Owned(s, g) && F.AllHoleFree(s)
    ensures Sound(g, Volume(s.bitmap, s.inode, s.block))
  {
    assert SoundWith(g, Volume(s.bitmap, s.inode, s.block), s.owner);
  }

  /** The card was in these states, one after another.  Recovery can start from each of them.  Whichever a
      failure leaves, and however often recovery is cut off and started over, a complete recovery finds the
      old volume if the failure came before the switch, and the new one from it on. */
  ghost predicate Atomic(states: seq<Image>, switch: nat, r: Region, g: Geometry, was: Volume, becomes: Volume) {
    && (forall i: nat | i < |states| :: HeaderOk(states[i], r))
    && forall i: nat, ds: seq<Image> | i < |states| && ds != [] && ds[0] == states[i] && RestartChain(ds, r) ::
      Finds(ds, r, g, if i < switch then was else becomes)
  }

  ghost predicate Finds(ds: seq<Image>, r: Region, g: Geometry, v: Volume)
    requires ds != [] && RestartChain(ds, r)
  {
    Stored(Recovered(ds[|ds| - 1], r), g, v)
  }

  lemma CommitIsAtomic(before: seq<Image>, after: seq<Image>, d: Image, view: Image, r: Region, g: Geometry, was: Volume, becomes: Volume)
    requires AllYield(before, d, r) && AllYield(after, view, r)
    requires Stored(d, g, was) && Stored(view, g, becomes) && LaidOut(g, r, was) && LaidOut(g, r, becomes)
    ensures Atomic(before + after, |before|, r, g, was, becomes)
  {
    hide Stored, LaidOut, Recovered, SameHome;
    forall i: nat | i < |before + after| ensures HeaderOk((before + after)[i], r) {
      assert if i < |before| then Yields(before[i], d, r) else Yields(after[i - |before|], view, r);
    }
    hide HeaderOk, Yields;
    forall i: nat, ds: seq<Image> | i < |before + after| && ds != [] && ds[0] == (before + after)[i] && RestartChain(ds, r)
      ensures Finds(ds, r, g, if i < |before| then was else becomes)
    {
      CrashAtomicity(before, after, d, view, r, i, ds);
      StoredHome(Recovered(ds[|ds| - 1], r), if i < |before| then d else view, g, r, if i < |before| then was else becomes);
    }
  }

  /** Between transactions: the cache and the card both hold a volume, and nothing is logged. */
  ghost predicate Durable(log: Log.Log, g: Geometry, v: Volume)
    reads log, log.cache, log.cache.disk
  {
    InStep(log, g, v) && Stored(log.cache.disk.sector, g, v) && log.Logged() == {}
  }

  /** commit, from a card with one volume to a cache with another: `before` and `after` are the states of the
      card from the start on.  Not ok is a panic: the cache is full. */
  method CommitVolume(log: Log.Log, g: Geometry, ghost was: Volume, ghost becomes: Volume)
    returns (ok: bool, ghost before: seq<Image>, ghost after: seq<Image>)
    requires InStep(log, g, becomes) && Stored(log.cache.disk.sector, g, was) && LaidOut(g, log.region, was)
    modifies log`n, log.cache, log.cache.disk
    ensures before != [] && before[0] == old(log.cache.disk.sector)
    ensures log.cache.disk.history == old(log.cache.disk.history) + before[1..] + after
    ensures Atomic(before + after, |before|, log.region, g, was, becomes)
    ensures ok ==>
              && Durable(log, g, becomes) && (before + after)[|before| + |after| - 1] == log.cache.disk.sector
              && (after != [] <==> old(log.Logged()) != {})
    ensures old(log.cache.Quiet()) && ok ==> log.cache.Quiet()
    ensures old(log.cache.Quiet()) && old(log.n) < LOGSIZE ==> ok
  {
    hide Stored, LaidOut, BufferCache.CacheOk, BufferCache.ListOk, BufferCache.DirtySet, BufferCache.LockedSet, Recovered, AllYield, Atomic;
    ghost var d, view := log.cache.disk.sector, log.cache.view;
    log.SettledUnheld();
    log.LoggedSize();
    ok, before, after := log.Commit();
    CommitIsAtomic(before, after, d, view, log.region, g, was, becomes);
    if ok {
      StoredHome(log.cache.disk.sector, view, g, log.region, becomes);
      StoredHome(log.cache.view, view, g, log.region, becomes);
    }
  }

  /** The end of a transaction: its updates are in the log, and commit makes them durable together. */
  method EndTransaction(fs: F.Fs, log: Log.Log) returns (ok: bool, ghost states: seq<Image>, ghost switch: nat)
    requires fs.Valid() && Durable(log, fs.g, fs.base)
    modifies log`n, log`block, log.cache, log.cache.disk
    ensures states != [] && states[0] == old(log.cache.disk.sector)
    ensures log.cache.disk.history == old(log.cache.disk.history) + states[1..]
    ensures Atomic(states, switch, log.region, fs.g, fs.base, fs.Now()) && Sound(fs.g, fs.Now())
    ensures ok ==> Durable(log, fs.g, fs.Now())
    ensures old(log.cache.Quiet()) && ok ==> log.cache.Quiet()
    ensures old(log.cache.Quiet()) && RoomToLog(fs.logged, log.region) ==> ok
  {
    hide Stored, LaidOut, BufferCache.CacheOk, BufferCache.ListOk, BufferCache.DirtySet, BufferCache.LockedSet, AfterAll, BlocksOf,
      SectorsOf, Atomic, Owned, F.AllHoleFree, Sound, Recovered, AllYield;
    ghost var d := log.cache.disk.sector;
    ValidIsSound(fs.g, fs.S());
    WhereLed(fs.g, fs.base, fs.updates, fs.Now(), fs.logged);
    SectorsCount(fs.logged);
    NothingWritten(d, log.region, fs.g, fs.base, fs.Now());
    states, switch := [d], 1;
    ok := LogAll(log, fs.g, fs.updates, fs.base);
    if !ok {
      return;
    }
    log.LoggedSize();
    ghost var before, after;
    ok, before, after := CommitVolume(log, fs.g, fs.base, fs.Now());
    states, switch := before + after, |before|;
  }

  lemma OneMoreSector(blocks: set<nat>, b: nat)
    ensures SectorsOf(blocks + {b}) == SectorsOf(blocks) + {b + MBR_BASE}
    ensures b + MBR_BASE in SectorsOf(blocks) ==> b in blocks
  {
    forall s | s in SectorsOf(blocks) + {b + MBR_BASE} ensures s in SectorsOf(blocks + {b}) {
      if s in SectorsOf(blocks) {
        var c :| c in blocks && c + MBR_BASE == s;
        assert c in blocks + {b};
      } else {
        assert b in blocks + {b};
      }
    }
  }

  lemma {:induction false} SectorsCount(blocks: set<nat>)
    ensures |SectorsOf(blocks)| == |blocks|
  {
    if b :| b in blocks {
      SectorsCount(blocks - {b});
      OneMoreSector(blocks - {b}, b);
      assert blocks == blocks - {b} + {b};
    }
  }

  lemma NothingWritten(d: Image, r: Region, g: Geometry, was: Volume, becomes: Volume)
    requires 0 < r.size && r.start + r.size + MBR_BASE <= |d| && Entries(HeaderOf(d, r)) == 0
    requires Stored(d, g, was) && LaidOut(g, r, was)
    ensures Atomic([d], 1, r, g, was, becomes)
  {
    hide Stored, LaidOut, Recovered;
    EmptyLogYields(d, d, r);
    forall i: nat, ds: seq<Image> | i < 1 && ds != [] && ds[0] == [d][i] && RestartChain(ds, r) ensures Finds(ds, r, g, was) {
      CrashAtomicity([d], [], d, d, r, 0, ds);
      StoredHome(Recovered(ds[|ds| - 1], r), d, g, r, was);
    }
  }

  /** After a power failure: the card is in one of the states of a transaction, or recovery was started
      from it and cut off, any number of times.  The next boot goes on from the old volume if the failure
      came before the switch, and from the new one otherwise. */
  method BootAfterCrash(log: Log.Log, g: Geometry, ghost states: seq<Image>, ghost switch: nat, ghost was: Volume,
                        ghost becomes: Volume, ghost i: nat, ghost ds: seq<Image>)
    requires Atomic(states, switch, log.region, g, was, becomes) && i < |states|
    requires ds != [] && ds[0] == states[i] && Restarts(ds, log.region) && ds[|ds| - 1] == log.cache.disk.sector
    requires log.cache.Valid() && log.cache.Quiet() && log.cache.Locked() == {} && log.cache.Dirty() == {}
    requires |log.block| == LOGSIZE && LaidOut(g, log.region, was) && LaidOut(g, log.region, becomes)
    modifies log, log.cache, log.cache.disk
    ensures Durable(log, g, if i < switch then was else becomes) && log.cache.Quiet()
  {
    hide Stored, LaidOut, Recovered, BufferCache.CacheOk, BufferCache.ListOk, HeaderOk, RecoveryPoint;
    RestartsAreChain(ds, log.region);
    assert Finds(ds, log.region, g, if i < switch then was else becomes);
    Reboot(log, g, if i < switch then was else becomes);
  }

  /** Each image is what a failure during recovery from the one before leaves. */
  ghost predicate Restarts(ds: seq<Image>, r: Region) {
    forall j | 0 <= j < |ds| - 1 :: HeaderOk(ds[j], r) ==> RecoveryPoint(ds[j], ds[j + 1], r)
  }

  /** Recovery never leaves a card from which recovery cannot start. */
  lemma {:induction false} RestartsAreChain(ds: seq<Image>, r: Region)
    requires ds != [] && HeaderOk(ds[0], r) && Restarts(ds, r)
    ensures RestartChain(ds, r)
  {
    hide HeaderOk, RecoveryPoint;
    if |ds| > 1 {
      var m := |ds| - 1;
      assert forall i | 0 <= i < m :: ds[..m][i] == ds[i];
      RestartsAreChain(ds[..m], r);
      assert HeaderOk(ds[..m][m - 1], r) && RecoveryPoint(ds[m - 1], ds[m], r);
      RecoveryRestarts(ds[m - 1], ds[m], r);
    }
  }

  /** Booting from a card on which recovery finds a volume: transactions can go on from it. */
  method Reboot(log: Log.Log, g: Geometry, ghost v: Volume)
    requires log.cache.Valid() && log.cache.Quiet() && log.cache.Locked() == {} && log.cache.Dirty() == {}
    requires |log.block| == LOGSIZE && HeaderOk(log.cache.disk.sector, log.region) && LaidOut(g, log.region, v)
    requires Stored(Recovered(log.cache.disk.sector, log.region), g, v)
    modifies log, log.cache, log.cache.disk
    ensures Durable(log, g, v) && log.cache.Quiet()
  {
    hide Stored, LaidOut, Recovered, BufferCache.CacheOk, BufferCache.ListOk, HeaderOk;
    ghost var writes;
    var ok;
    ok, writes := log.RecoverFromLog();
    log.LoggedSize();
  }

  // Transactions of the file system

  /** A chunk of filewrite: begin_op, writei, end_op. */
  method WriteTransaction(f: OpenFiles.File, log: Log.Log, chunk: seq<byte>)
    returns (ok: bool, r: int, ghost states: seq<Image>, ghost switch: nat)
    requires f.Ready() && |chunk| <= OpenFiles.CHUNK && f.off + |chunk| < F.SIZE_T && Durable(log, f.fs.g, f.fs.Now())
    modifies f, f.fs, log, log.cache, log.cache.disk
    ensures states != [] && states[0] == old(log.cache.disk.sector)
    ensures log.cache.disk.history == old(log.cache.disk.history) + states[1..]
    ensures Atomic(states, switch, log.region, f.fs.g, old(f.fs.Now()), f.fs.Now()) && Sound(f.fs.g, old(f.fs.Now()))
    ensures ok ==> f.Ready() && Durable(log, f.fs.g, f.fs.Now()) && Sound(f.fs.g, f.fs.Now())
    ensures old(log.cache.Quiet()) && ok ==> log.cache.Quiet()
    ensures ok && r == -1 ==> f.fs.S() == old(f.fs.S())
    ensures ok && r != -1 ==> r == |chunk| && F.WroteFile(old(f.fs.S()), f.fs.S(), f.inum, old(f.off), chunk)
    ensures
      && old(log.cache.Quiet()) && MAXOPBLOCKS + 1 < log.region.size
      && (|| old(f.off) > old(f.fs.inode[f.inum]).size || old(f.off) + |chunk| > MAXFILE * BSIZE
          || F.Lacking(old(f.fs.S()), f.inum, old(f.off), |chunk|) <= F.Spare(old(f.fs.S()), f.fs.g))
      ==> ok
  {
    hide Stored, LaidOut, InStep, Atomic, Sound, Owned, F.AllHoleFree, F.WroteFile, F.Lacking, F.Spare, Leads, AfterAll;
    ghost var d, was := log.cache.disk.sector, f.fs.Now();
    ValidIsSound(f.fs.g, f.fs.S());
    StartedFrom(log, f.fs.g, was);
    states, switch := [d], 1;
    ok, r := f.WriteChunk(chunk);
    NothingWritten(d, log.region, f.fs.g, was, f.fs.Now());
    if !ok {
      return;
    }
    WhereLed(f.fs.g, f.fs.base, f.fs.updates, f.fs.Now(), f.fs.logged);
    ok, states, switch := EndTransaction(f.fs, log);
  }

  lemma StartedFrom(log: Log.Log, g: Geometry, v: Volume)
    requires Durable(log, g, v)
    ensures 0 < log.region.size && log.region.start + log.region.size + MBR_BASE <= |log.cache.disk.sector|
    ensures Entries(HeaderOf(log.cache.disk.sector, log.region)) == 0 && Stored(log.cache.disk.sector, g, v) && LaidOut(g, log.region, v)
  {
  }

  /** itrunc as one transaction. */
  method TruncateTransaction(fs: F.Fs, log: Log.Log, inum: nat) returns (ok: bool, ghost states: seq<Image>, ghost switch: nat)
    requires fs.Valid() && IsInode(fs.S(), inum) && Durable(log, fs.g, fs.Now())
    modifies fs, log, log.cache, log.cache.disk
    ensures states != [] && states[0] == old(log.cache.disk.sector)
    ensures log.cache.disk.history == old(log.cache.disk.history) + states[1..]
    ensures Atomic(states, switch, log.region, fs.g, old(fs.Now()), fs.Now())
    ensures Sound(fs.g, old(fs.Now())) && Sound(fs.g, fs.Now())
    ensures fs.Valid() && fs.inode == old(fs.inode)[inum := F.Emptied(old(fs.inode)[inum])] && F.SameOthers(old(fs.S()), fs.S(), inum)
    ensures ok ==> Durable(log, fs.g, fs.Now())
    ensures old(log.cache.Quiet()) && ok ==> log.cache.Quiet()
    ensures old(log.cache.Quiet()) && F.MapSize(fs.g) + 1 < LOGSIZE && F.MapSize(fs.g) + 2 < log.region.size ==> ok
  {
    hide Stored, LaidOut, InStep, Atomic, Sound, Owned, F.AllHoleFree, F.SameOthers, Leads;
    ValidIsSound(fs.g, fs.S());
    fs.Begin();
    fs.Itrunc(inum);
    F.TruncLogs(fs.g, fs.logged, inum);
    ok, states, switch := EndTransaction(fs, log);
  }

  /** dirlink as one transaction. */
  method LinkTransaction(fs: F.Fs, log: Log.Log, dp: nat, name: seq<byte>, inum: nat)
    returns (ok: bool, r: int, ghost states: seq<Image>, ghost switch: nat)
    requires fs.Valid() && IsInode(fs.S(), dp)
    requires Durable(log, fs.g, fs.Now())
    modifies fs, log, log.cache, log.cache.disk
    ensures states != [] && states[0] == old(log.cache.disk.sector)
    ensures log.cache.disk.history == old(log.cache.disk.history) + states[1..]
    ensures Atomic(states, switch, log.region, fs.g, old(fs.Now()), fs.Now()) && Sound(fs.g, old(fs.Now()))
    ensures ok ==> fs.Valid() && Durable(log, fs.g, fs.Now()) && Sound(fs.g, fs.Now()) && old(fs.inode)[dp].size <= MAXFILE * BSIZE
    ensures ok ==>
              var f := F.File(old(fs.S()), dp);
              if Directories.Lookup(f, Directories.Key(name)) != None then r == -1 && fs.S() == old(fs.S())
              else r == 0 && IsInode(fs.S(), dp) && fs.inode[dp].size <= MAXFILE * BSIZE
                   && F.File(fs.S(), dp) == Directories.Linked(f, name, inum)
    ensures old(log.cache.Quiet()) && ok ==> log.cache.Quiet()
    ensures old(fs.inode)[dp].size <= MAXFILE * BSIZE
    ensures
      var f := F.File(old(fs.S()), dp);
      && old(log.cache.Quiet()) && MAXOPBLOCKS + 1 < log.region.size && old(fs.inode)[dp].typ == T_DIR
      && (|| Directories.Lookup(f, Directories.Key(name)) != None
          || (|f| % Directories.DIRENT == 0
              && Directories.HasRoom(old(fs.S()), fs.g, dp, Directories.DIRENT * Directories.FirstEmpty(f, 0))))
      ==> ok
  {
    hide Stored, LaidOut, InStep, Atomic, Sound, Owned, F.AllHoleFree, F.File, Leads, Directories.Lookup, Directories.Linked, Directories.HasRoom, Directories.FirstEmpty;
    ghost var d, was := log.cache.disk.sector, fs.Now();
    ValidIsSound(fs.g, fs.S());
    StartedFrom(log, fs.g, was);
    states, switch := [d], 1;
    fs.Begin();
    ok, r := Directories.Dirlink(fs, dp, name, inum);
    NothingWritten(d, log.region, fs.g, was, fs.Now());
    if !ok {
      return;
    }
    assert fs.logged - {} == fs.logged;
    ok, states, switch := EndTransaction(fs, log);
  }
}
