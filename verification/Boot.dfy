/** From the builder to the kernel: the image of user/src/mkfs/main.c as bytes, copied to the card by
    mksd.mk, and the first boot from it. */
module Boot {
  import opened Layout
  import opened Blocks
  import opened Updates
  import opened Files
  import opened Disk
  import opened Mkfs
  import opened Recovery
  import opened Transactions
  import opened Names
  import opened RootDirectory
  import BufferCache
  import Log

  // The superblock

  function SuperWords(): seq<u32> { [FSSIZE, FSSIZE - NMETA, NINODES, NLOG, 2, 2 + NLOG, 2 + NLOG + NINODEBLOCKS] }

  function SuperBlock(): Block { PutWords(Zeroes(), 0, SuperWords()) }

  /** What readsb reads: the geometry of the file system and the place of the log. */
  function GeometryOf(b: Block): Geometry {
    Geometry(Word(b, 0), if Word(b, 1) <= Word(b, 0) then Word(b, 0) - Word(b, 1) else 0, Word(b, 5), Word(b, 6))
  }

  function LogOf(b: Block): Region { Region(Word(b, 4), Word(b, 3)) }

  /** Builder and kernel agree on where everything is. */
  lemma SuperAgrees()
    ensures GeometryOf(SuperBlock()) == Geo() && LogOf(SuperBlock()) == Region(2, NLOG)
  {
    hide Word, PutWords;
    forall i: nat | i < 7 ensures Word(SuperBlock(), i) == SuperWords()[i] {
      PutThenWords(Zeroes(), 0, SuperWords(), i);
    }
  }

  // The image

  /** The first n inodes of the k-th inode block. */
  function InodesBlock(inode: seq<Inode>, k: nat, n: nat): Block
    requires n <= IPB && forall j | 0 <= j < |inode| :: Storable(inode[j])
  {
    if n == 0 then Zeroes()
    else if IPB * k + n - 1 < |inode| then PutInode(InodesBlock(inode, k, n - 1), n - 1, inode[IPB * k + n - 1])
    else InodesBlock(inode, k, n - 1)
  }

  lemma {:induction false} InodesRead(inode: seq<Inode>, k: nat, n: nat, i: nat)
    requires i < n <= IPB && IPB * k + i < |inode| && forall j | 0 <= j < |inode| :: Storable(inode[j])
    ensures InodeAt(InodesBlock(inode, k, n), i) == inode[IPB * k + i]
  {
    hide InodeAt, PutInode, Storable;
    if i < n - 1 {
      InodesRead(inode, k, n - 1, i);
    }
    if IPB * k + n - 1 < |inode| {
      PutThenInode(InodesBlock(inode, k, n - 1), n - 1, inode[IPB * k + n - 1], i);
    }
  }

  function MapByte(bitmap: seq<bv8>, i: nat): byte { if i < |bitmap| then ToByte(bitmap[i]) else 0 }

  function MapBytes(bitmap: seq<bv8>, k: nat, n: nat): (bytes: seq<byte>)
    ensures |bytes| == n && forall i | 0 <= i < n :: bytes[i] == MapByte(bitmap, BSIZE * k + i)
  {
    if n == 0 then [] else MapBytes(bitmap, k, n - 1) + [MapByte(bitmap, BSIZE * k + n - 1)]
  }

  /** The k-th block of the free map. */
  function MapBlock(bitmap: seq<bv8>, k: nat): Block { MapBytes(bitmap, k, BSIZE) }

  function ImageBlock(v: Volume, b: nat): Block
    requires forall j | 0 <= j < |v.inode| :: Storable(v.inode[j])
  {
    if b == 1 then SuperBlock()
    else if b < Geo().inodestart then Zeroes()
    else if b < Geo().bmapstart then InodesBlock(v.inode, b - Geo().inodestart, IPB)
    else if b < NMETA then MapBlock(v.bitmap, b - Geo().bmapstart)
    else if b < |v.block| then v.block[b] else Zeroes()
  }

  /** A card with the image on it holds the volume, and its log is empty. */
  lemma ImageHolds(d: Image, v: Volume)
    requires FSSIZE + MBR_BASE <= |d| && LaidOut(Geo(), Region(2, NLOG), v) && forall j | 0 <= j < |v.inode| :: Storable(v.inode[j])
    requires forall b | 0 <= b < FSSIZE :: d[b + MBR_BASE] == ImageBlock(v, b)
    ensures Stored(d, Geo(), v) && d[1 + MBR_BASE] == SuperBlock()
    ensures HeaderOf(d, Region(2, NLOG)) == Zeroes()
  {
    hide InodesBlock, InodeAt, SuperBlock, FromByte, ToByte, Storable;
    forall i | 0 <= i < |v.bitmap| ensures BitsStored(d, Geo(), v, i) {
      assert d[(i / BSIZE + Geo().bmapstart) + MBR_BASE] == ImageBlock(v, i / BSIZE + Geo().bmapstart);
      assert i == BSIZE * (i / BSIZE) + i % BSIZE;
      ByteKeepsBits(v.bitmap[i]);
    }
    forall j | 0 <= j < |v.inode| ensures InodeStored(d, Geo(), v, j) {
      assert d[InodeBlock(Geo(), j) + MBR_BASE] == ImageBlock(v, InodeBlock(Geo(), j));
      assert j == IPB * (j / IPB) + j % IPB;
      InodesRead(v.inode, j / IPB, IPB, j % IPB);
    }
    forall b | NMETA <= b < |v.block| ensures BlockStored(d, v, b) {
      assert d[b + MBR_BASE] == ImageBlock(v, b);
    }
    assert d[2 + MBR_BASE] == ImageBlock(v, 2) && d[1 + MBR_BASE] == ImageBlock(v, 1);
  }

  /** The image goes to its partition of the card. */
  method CopyImage(disk: SdCard, v: Volume)
    requires FSSIZE + MBR_BASE <= |disk.sector| && forall j | 0 <= j < |v.inode| :: Storable(v.inode[j])
    modifies disk
    ensures |disk.sector| == |old(disk.sector)| && forall b | 0 <= b < FSSIZE :: disk.sector[b + MBR_BASE] == ImageBlock(v, b)
    ensures forall s | 0 <= s < |disk.sector| && !(MBR_BASE <= s < FSSIZE + MBR_BASE) :: disk.sector[s] == old(disk.sector[s])
  {
    hide ImageBlock, Storable;
    for b := 0 to FSSIZE
      invariant |disk.sector| == |old(disk.sector)| && forall c | 0 <= c < b :: disk.sector[c + MBR_BASE] == ImageBlock(v, c)
      invariant forall s | 0 <= s < |disk.sector| && !(MBR_BASE <= s < b + MBR_BASE) :: disk.sector[s] == old(disk.sector[s])
    {
      disk.Write(b + MBR_BASE, ImageBlock(v, b));
    }
  }

  // The first boot

  /** Build the image, copy it to a card, and boot: binit, readsb and recover_from_log.  The kernel finds
      what the builder put in. */
  method FirstBoot(disk: SdCard, names: seq<seq<byte>>, contents: seq<seq<seq<byte>>>) returns (ok: bool, fs: Fs, log: Log.Log)
    requires |names| == |contents| && FSSIZE + MBR_BASE <= |disk.sector|
    modifies disk
    ensures ok <==> Fits(contents, |names|)
    ensures ok ==>
              && fs.g == Geo() == GeometryOf(SuperBlock()) && log.region == LogOf(SuperBlock()) && fresh(log) && fresh(log.cache)
              && log.cache.disk == disk && Durable(log, fs.g, fs.Now()) && log.cache.Quiet() && Kinds(fs.S(), |names|)
              && forall k | 0 <= k < |names| :: IsFile(fs.S(), k + 2, Joined(contents[k], |contents[k]|))
    ensures ok ==>
              var root := RootText(names, |names|);
              if |root| % BSIZE != 0
              then && fs.Valid() && Sound(fs.g, fs.Now()) && IsFile(fs.S(), ROOT, root + seq(BSIZE - |root| % BSIZE, _ => 0))
                   && RootLeads(fs.S(), names) && DirsOk(fs.S()) && AllLinked(fs.S())
              else !AllHoleFree(fs.S())
  {
    hide Stored, LaidOut, Owned, AllHoleFree, IsFile, Fits, FirstBits, Need, FileBlocks, Joined, RootText, Storable, ImageBlock,
      SuperBlock, Sound, Leads, RootLeads, Kinds, DirsOk, AllLinked, GeometryOf, LogOf, Word;
    ghost var freeblock;
    ok, fs, freeblock := Build(names, contents);
    SuperAgrees();
    if ok {
      CopyImage(disk, Volume(fs.bitmap, fs.dinode, fs.block));
      ImageHolds(disk.sector, fs.Now());
      EmptyLog(disk.sector);
      StoredHome(Recovered(disk.sector, Region(2, NLOG)), disk.sector, Geo(), Region(2, NLOG), fs.Now());
      if fs.Valid() {
        ValidIsSound(fs.g, fs.S());
        RootReady(fs.S(), names);
      }
    }
    var cache := new BufferCache.Bcache.Binit(disk);
    log := new Log.Log(cache, LogOf(SuperBlock()));
    if ok {
      Reboot(log, Geo(), fs.Now());
    }
  }

  /** Path lookup can work on the image, and finds the files by their names. */
  lemma RootReady(s: State, names: seq<seq<byte>>)
    requires Owned(s, Geo()) && Kinds(s, |names|) && |s.inode| == IPB * NINODEBLOCKS
    requires
      var root := RootText(names, |names|);
      |root| % BSIZE != 0 && IsFile(s, ROOT, root + seq(BSIZE - |root| % BSIZE, _ => 0))
    ensures RootLeads(s, names) && DirsOk(s) && AllLinked(s)
  {
    hide RootText, IsFile, RootLeads, DirsOk, AllLinked, Owned, Kinds;
    var root := RootText(names, |names|);
    var z: seq<byte> := seq(BSIZE - |root| % BSIZE, _ => 0);
    RootLength(names, |names|);
    AllPlaces(s);
    FewFiles(s, |names|);
    NamesLead(s, names, z);
    ReadyForNames(s, names, z);
  }

  lemma FewFiles(s: State, n: nat)
    requires Kinds(s, n)
    ensures n + 1 < |s.inode| && s.inode[1].typ == 1
  {
  }

  lemma EmptyLog(d: Image)
    requires FSSIZE + MBR_BASE <= |d| && HeaderOf(d, Region(2, NLOG)) == Zeroes()
    ensures HeaderOk(d, Region(2, NLOG)) && SameHome(Recovered(d, Region(2, NLOG)), d, Region(2, NLOG))
  {
    EmptyLogYields(d, d, Region(2, NLOG));
  }

  // A root directory that fills a block

  /** Thirty files of at most a block each fit, and with the two entries of the root itself its directory
      is a whole block long. */
  lemma ThirtyFiles(names: seq<seq<byte>>, contents: seq<seq<seq<byte>>>)
    requires |names| == |contents| == 30 && forall k | 0 <= k < 30 :: |Joined(contents[k], |contents[k]|)| <= BSIZE
    ensures Fits(contents, 30) && |RootText(names, 30)| == BSIZE
  {
    hide Joined, RootText;
    RootLength(names, 30);
    OneBlockEach(contents, 30);
  }

  lemma {:induction false} OneBlockEach(contents: seq<seq<seq<byte>>>, n: nat)
    requires n <= |contents| && forall k | 0 <= k < n :: |Joined(contents[k], |contents[k]|)| <= BSIZE
    ensures FileBlocks(contents, n) <= n
  {
    hide Joined;
    if n > 0 {
      OneBlockEach(contents, n - 1);
    }
  }

  /** An image on which the kernel finds a root directory with a hole: thirty empty files. */
  method HoleInRoot() returns (fs: Fs)
    ensures fs.g == Geo() && Owned(fs.S(), Geo()) && !AllHoleFree(fs.S())
  {
    hide Owned;
    var names: seq<seq<byte>>, contents: seq<seq<seq<byte>>> := seq(30, _ => [97]), seq(30, _ => []);
    ThirtyFiles(names, contents);
    var ok;
    ghost var freeblock;
    ok, fs, freeblock := Build(names, contents);
  }
}
