/** The redo log of kern/log.c, over the buffer cache. */
module Log {
  import opened Disk
  import opened Layout
  import opened BufferCache
  import opened Recovery

  /** The card sectors of the entries lo..hi of a block list. */
  ghost function Sectors(block: seq<nat>, lo: nat, hi: nat): set<nat> {
    set i | lo <= i < hi && i < |block| :: block[i] + MBR_BASE
  }

  lemma SectorsStep(block: seq<nat>, k: nat, n: nat)
    requires k < n <= |block| && forall i, j | 0 <= i < j < n :: block[i] != block[j]
    ensures block[k] + MBR_BASE in Sectors(block, k, n)
    ensures Sectors(block, k + 1, n) == Sectors(block, k, n) - {block[k] + MBR_BASE}
    ensures Sectors(block, 0, k + 1) == Sectors(block, 0, k) + {block[k] + MBR_BASE}
    ensures block[k] + MBR_BASE !in Sectors(block, 0, k)
  {
  }

  /** The in-memory header lists n distinct blocks of a card, outside the log. */
  ghost predicate Listing(sectors: nat, g: Region, n: nat, block: seq<nat>) {
    && n <= |block|
    && (forall i | 0 <= i < n :: block[i] + MBR_BASE < sectors && !InLog(g, block[i] + MBR_BASE) && block[i] < 0x1_0000_0000)
    && (forall i, j | 0 <= i < j < n :: block[i] != block[j])
  }

  lemma {:induction false} SectorsSize(sectors: nat, g: Region, block: seq<nat>, n: nat)
    requires Listing(sectors, g, n, block)
    ensures |Sectors(block, 0, n)| == n
  {
    if n > 0 {
      SectorsSize(sectors, g, block, n - 1);
      SectorsStep(block, n - 1, n);
    }
  }

  /** Entering block number x at the first index that holds it, or at the end. */
  lemma EnterBlock(sectors: nat, g: Region, block: seq<nat>, n: nat, x: nat, i: nat)
    requires Listing(sectors, g, n, block) && x + MBR_BASE < sectors && !InLog(g, x + MBR_BASE) && x < 0x1_0000_0000
    requires i <= n < |block| && (i == n || block[i] == x) && forall j | 0 <= j < i :: block[j] != x
    ensures
      var block', n' := block[i := x], if i == n then n + 1 else n;
      && Listing(sectors, g, n', block')
      && Sectors(block', 0, n') == Sectors(block, 0, n) + {x + MBR_BASE}
      && (i < n <==> x + MBR_BASE in Sectors(block, 0, n))
  {
    var block', n' := block[i := x], if i == n then n + 1 else n;
    assert block'[i] + MBR_BASE in Sectors(block', 0, n');
    assert forall j | 0 <= j < n :: block'[j] == block[j];
  }

  class Log {
    const cache: Bcache
    const region: Region
    var n: nat                // lh.n
    var block: seq<nat>       // lh.block

    constructor (cache: Bcache, region: Region)
      ensures this.cache == cache && this.region == region && n == 0 && |block| == LOGSIZE
    {
      this.cache := cache;
      this.region := region;
      n := 0;
      block := seq(LOGSIZE, _ => 0);
    }

    ghost function Logged(): set<nat>
      reads this
    {
      Sectors(block, 0, n)
    }

    ghost predicate ListOk()
      reads this, cache, cache.disk
    {
      && 0 < region.size && region.start + region.size + MBR_BASE <= |cache.disk.sector|
      && |block| == LOGSIZE && n <= LOGSIZE && n < region.size
      && Listing(|cache.disk.sector|, region, n, block)
    }

    /** Between transactions the card's log is empty and exactly the logged blocks are pinned. */
    ghost predicate Valid()
      reads this, cache, cache.disk
    {
      && cache.Valid() && ListOk()
      && Entries(HeaderOf(cache.disk.sector, region)) == 0
      && cache.Dirty() == Logged()
    }

    /** Nobody holds a block of the log or a logged block. */
    ghost predicate Unheld()
      reads this, cache
    {
      forall s | s in cache.Locked() :: !InLog(region, s) && s !in Logged()
    }

    /** Both blocks, locked. */
    method BreadTwo(first: nat, second: nat) returns (ok: bool, a: nat, b: nat)
      requires cache.Valid() && first != second
      requires first + MBR_BASE < |cache.disk.sector| && second + MBR_BASE < |cache.disk.sector|
      requires first + MBR_BASE !in cache.Locked() && second + MBR_BASE !in cache.Locked()
      modifies cache, cache.disk
      ensures cache.Valid() && cache.view == old(cache.view) && cache.Dirty() == old(cache.Dirty())
      ensures cache.disk.sector == old(cache.disk.sector) && cache.disk.history == old(cache.disk.history)
      ensures ok ==>
                && cache.Locked() == old(cache.Locked()) + {first + MBR_BASE, second + MBR_BASE}
                && Holds(cache.buf, cache.slot, cache.view, a, first + MBR_BASE)
                && Holds(cache.buf, cache.slot, cache.view, b, second + MBR_BASE)
      ensures old(cache.Quiet()) ==> cache.Quiet()
      ensures old(cache.Room(0) && (second + MBR_BASE in cache.Dirty() || cache.Room(1))) ==> ok
    {
      b := 0;
      ok, a := cache.Bread(ROOTDEV, first);
      if ok {
        ok, b := cache.Bread(ROOTDEV, second);
      }
    }

    /** New content for a held buffer, bwrite, brelse. */
    method Rewrite(b: nat, ghost s: nat, data: Block)
      requires cache.Valid() && Holds(cache.buf, cache.slot, cache.view, b, s)
      modifies cache, cache.disk
      ensures cache.Valid() && cache.Locked() == old(cache.Locked()) - {s} && cache.Dirty() == old(cache.Dirty()) - {s}
      ensures cache.view == old(cache.view)[s := data] && cache.disk.sector == old(cache.disk.sector)[s := data]
      ensures cache.disk.history == old(cache.disk.history) + [cache.disk.sector]
      ensures old(cache.Quiet()) ==> cache.Quiet()
    {
      hide DirtySet, LockedSet, CacheOk, BufferCache.ListOk;
      cache.Store(b, data);
      cache.Bwrite(b);
      cache.Brelse(b);
    }

    /** memmove from one held buffer to another, bwrite of the second, brelse of both. */
    method Transfer(src: nat, dst: nat, ghost s: nat, ghost d: nat)
      requires cache.Valid() && s != d
      requires Holds(cache.buf, cache.slot, cache.view, src, s) && Holds(cache.buf, cache.slot, cache.view, dst, d)
      requires cache.view[s] == cache.disk.sector[s] || s in cache.Dirty()
      modifies cache, cache.disk
      ensures cache.Valid()
      ensures cache.Locked() == old(cache.Locked()) - {s, d} && cache.Dirty() == old(cache.Dirty()) - {d}
      ensures cache.view == old(cache.view)[d := old(cache.view)[s]]
      ensures cache.disk.sector == old(cache.disk.sector)[d := old(cache.view)[s]]
      ensures cache.disk.history == old(cache.disk.history) + [cache.disk.sector]
      ensures old(cache.Quiet()) ==> cache.Quiet()
    {
      hide CacheOk, BufferCache.ListOk;
      cache.Store(dst, cache.buf[src].data);
      cache.Bwrite(dst);
      cache.Brelse(src);
      cache.Brelse(dst);
    }

    /** Copies block src over block dst and writes it: the body of the loops of write_log (which
        reads dst first) and install_trans (which reads src first). */
    method Copy(src: nat, dst: nat, dstFirst: bool) returns (ok: bool)
      requires cache.Valid() && src != dst
      requires src + MBR_BASE < |cache.disk.sector| && dst + MBR_BASE < |cache.disk.sector|
      requires src + MBR_BASE !in cache.Locked() && dst + MBR_BASE !in cache.Locked()
      modifies cache, cache.disk
      ensures cache.Valid()
      ensures ok ==>
                && cache.Locked() == old(cache.Locked()) && cache.Dirty() == old(cache.Dirty()) - {dst + MBR_BASE}
                && cache.view == old(cache.view)[dst + MBR_BASE := old(cache.view)[src + MBR_BASE]]
                && cache.disk.sector == old(cache.disk.sector)[dst + MBR_BASE := old(cache.view)[src + MBR_BASE]]
                && cache.disk.history == old(cache.disk.history) + [cache.disk.sector]
      ensures !ok ==> cache.disk.sector == old(cache.disk.sector) && cache.disk.history == old(cache.disk.history)
      ensures old(cache.Quiet()) ==> cache.Quiet()
      ensures old(cache.Room(0) && ((if dstFirst then src else dst) + MBR_BASE in cache.Dirty() || cache.Room(1))) ==> ok
    {
      hide DirtySet, LockedSet, CacheOk, BufferCache.ListOk;
      CleanSector(cache.buf, cache.slot, cache.view, cache.disk.sector, src + MBR_BASE);
      var a, b;
      if dstFirst {
        ok, a, b := BreadTwo(dst, src);
        a, b := b, a;
      } else {
        ok, a, b := BreadTwo(src, dst);
      }
      if ok {
        Transfer(a, b, src + MBR_BASE, dst + MBR_BASE);
      }
    }

    /** write_log copied k blocks; d and v are the card and the view that it started from. */
    ghost predicate Logging(k: nat, d: Image, v: Image)
      reads this, cache, cache.disk
    {
      && cache.Valid() && ListOk() && k <= n && Unheld() && cache.Dirty() == Logged()
      && SlotsOnly(cache.disk.sector, d, region) && SlotsOnly(cache.view, v, region)
      && Copied(cache.disk.sector, cache.view, region, block, k)
    }

    method WriteLogStep(tail: nat, ghost d: Image, ghost v: Image) returns (ok: bool)
      requires Logging(tail, d, v) && tail < n
      modifies cache, cache.disk
      ensures cache.Valid() && |cache.disk.sector| == |old(cache.disk.sector)|
      ensures ok ==>
                && Logging(tail + 1, d, v) && cache.Locked() == old(cache.Locked())
                && cache.disk.history == old(cache.disk.history) + [cache.disk.sector]
      ensures !ok ==> cache.disk.history == old(cache.disk.history)
      ensures old(cache.Room(0)) ==> ok && cache.Room(0)
      ensures old(cache.Quiet()) && ok ==> cache.Quiet()
    {
      hide DirtySet, LockedSet, CacheOk, BufferCache.ListOk, Roomy;
      CopyOne(cache.disk.sector, cache.view, d, v, region, block, tail);
      assert InLog(region, SlotSector(region, tail));
      assert block[tail] + MBR_BASE in Logged();
      ok := Copy(block[tail], region.start + tail + 1, true);
    }

    /** Copies the logged blocks from the cache into the log. */
    method WriteLog() returns (ok: bool, ghost writes: seq<Image>)
      requires Valid() && Unheld()
      modifies cache, cache.disk
      ensures cache.Valid() && |cache.disk.sector| == |old(cache.disk.sector)|
      ensures cache.disk.history == old(cache.disk.history) + writes && (ok ==> |writes| == n) && |writes| <= n
      ensures AllSlotsOnly(writes, old(cache.disk.sector), region)
      ensures ok ==> Logging(n, old(cache.disk.sector), old(cache.view)) && cache.Locked() == old(cache.Locked())
      ensures old(cache.Room(0)) ==> ok && cache.Room(0)
      ensures old(cache.Quiet()) && ok ==> cache.Quiet()
    {
      ok := true;
      writes := [];
      for tail := 0 to n
        invariant Logging(tail, old(cache.disk.sector), old(cache.view)) && cache.Locked() == old(cache.Locked())
        invariant |writes| == tail && cache.disk.history == old(cache.disk.history) + writes
        invariant AllSlotsOnly(writes, old(cache.disk.sector), region)
        invariant old(cache.Room(0)) ==> cache.Room(0)
        invariant old(cache.Quiet()) ==> cache.Quiet()
      {
        ok := WriteLogStep(tail, old(cache.disk.sector), old(cache.view));
        if !ok {
          return;
        }
        writes := writes + [cache.disk.sector];
      }
    }

    method FillHeader(h: Block) returns (hb: Block)
      requires n <= LOGSIZE == |block| && forall i | 0 <= i < n :: block[i] < 0x1_0000_0000
      ensures hb == NewHeader(h, n, block)
    {
      hide PutWord;
      hb := PutWord(h, 0, n);
      ghost var words := [n] + block[..n];
      assert words[..1] == [n];
      for i := 0 to n
        invariant hb == PutWords(h, 0, words[..i + 1])
      {
        hb := PutWord(hb, 1 + i, block[i]);
        assert words[..i + 2][..i + 1] == words[..i + 1];
      }
      assert words[..n + 1] == words;
    }

    /** Writes the in-memory header over the header block. */
    method WriteHead() returns (ok: bool)
      requires cache.Valid() && ListOk() && HeaderSector(region) !in cache.Locked()
      requires HeaderSector(region) !in cache.Dirty()
      modifies cache, cache.disk
      ensures cache.Valid()
      ensures ok ==>
                && var h := NewHeader(HeaderOf(old(cache.disk.sector), region), n, block);
                && cache.disk.sector == old(cache.disk.sector)[HeaderSector(region) := h]
                && cache.view == old(cache.view)[HeaderSector(region) := h]
                && cache.disk.history == old(cache.disk.history) + [cache.disk.sector]
                && cache.Locked() == old(cache.Locked()) && cache.Dirty() == old(cache.Dirty())
      ensures !ok ==> cache.disk.sector == old(cache.disk.sector) && cache.disk.history == old(cache.disk.history)
      ensures old(cache.Room(0)) ==> ok && cache.Room(0)
      ensures old(cache.Quiet()) && ok ==> cache.Quiet()
    {
      hide DirtySet, LockedSet, CacheOk, BufferCache.ListOk;
      CleanSector(cache.buf, cache.slot, cache.view, cache.disk.sector, HeaderSector(region));
      var b;
      ok, b := cache.Bread(ROOTDEV, region.start);
      if !ok {
        return;
      }
      var hb := FillHeader(cache.buf[b].data);
      Rewrite(b, HeaderSector(region), hb);
    }

    /** install_trans copied k blocks home; d and v are the card and the view that it started from. */
    ghost predicate Installing(k: nat, d: Image, v: Image)
      reads this, cache, cache.disk
    {
      && cache.Valid() && ListOk() && k <= n && Unheld()
      && HeaderOk(d, region) && HeaderListed(d, region, n, block)
      && HeaderOk(v, region) && HeaderListed(v, region, n, block)
      && (forall s | 0 <= s < |d| == |v| && InLog(region, s) :: v[s] == d[s])
      && cache.disk.sector == Install(d, region, k) && cache.view == Install(v, region, k)
    }

    method InstallStep(tail: nat, ghost d: Image, ghost v: Image) returns (ok: bool)
      requires Installing(tail, d, v) && tail < n
      modifies cache, cache.disk
      ensures cache.Valid()
      ensures ok ==>
                && Installing(tail + 1, d, v) && cache.Locked() == old(cache.Locked())
                && cache.Dirty() == old(cache.Dirty()) - {block[tail] + MBR_BASE}
                && cache.disk.history == old(cache.disk.history) + [cache.disk.sector]
      ensures !ok ==> cache.disk.history == old(cache.disk.history)
      ensures |cache.disk.sector| == |old(cache.disk.sector)|
      ensures old(cache.Quiet() && RoomFor(cache.Locked(), cache.Dirty(), {block[tail] + MBR_BASE})) ==> ok && cache.Quiet()
      ensures old(cache.Quiet()) && ok ==> cache.Quiet()
    {
      hide Install, DirtySet, LockedSet, CacheOk, BufferCache.ListOk, Roomy;
      assert InLog(region, SlotSector(region, tail));
      assert block[tail] + MBR_BASE in Logged();
      InstallOne(d, v, region, n, block, tail);
      ok := Copy(region.start + tail + 1, block[tail], false);
    }

    /** The loop invariant of install_trans; locked and dirty are the sets it started from. */
    ghost predicate Installed(k: nat, d: Image, v: Image, locked: set<nat>, dirty: set<nat>, roomy: bool)
      reads this, cache, cache.disk
    {
      && Installing(k, d, v)
      && cache.Locked() == locked && cache.Dirty() == dirty - Sectors(block, 0, k)
      && (roomy ==> cache.Quiet() && RoomFor(cache.Locked(), cache.Dirty(), Sectors(block, k, n)))
    }

    method InstallNext(tail: nat, ghost d: Image, ghost v: Image, ghost locked: set<nat>, ghost dirty: set<nat>, ghost roomy: bool)
      returns (ok: bool)
      requires Installed(tail, d, v, locked, dirty, roomy) && tail < n
      modifies cache, cache.disk
      ensures cache.Valid() && |cache.disk.sector| == |old(cache.disk.sector)|
      ensures ok ==>
                && Installed(tail + 1, d, v, locked, dirty, roomy)
                && cache.disk.history == old(cache.disk.history) + [cache.disk.sector]
      ensures !ok ==> !roomy && cache.disk.history == old(cache.disk.history)
      ensures old(cache.Quiet()) && ok ==> cache.Quiet()
    {
      hide Install, DirtySet, LockedSet, CacheOk, BufferCache.ListOk, Roomy, Word;
      SectorsStep(block, tail, n);
      RoomForOne(cache.Locked(), cache.Dirty(), Sectors(block, tail, n), block[tail] + MBR_BASE);
      ok := InstallStep(tail, d, v);
    }

    /** Copies the logged blocks from the log to their home. */
    method InstallTrans(ghost roomy: bool) returns (ok: bool, ghost writes: seq<Image>)
      requires Installing(0, cache.disk.sector, cache.view)
      requires roomy ==> cache.Quiet() && RoomFor(cache.Locked(), cache.Dirty(), Logged())
      modifies cache, cache.disk
      ensures cache.Valid() && |cache.disk.sector| == |old(cache.disk.sector)|
      ensures cache.disk.history == old(cache.disk.history) + writes
      ensures Installs(writes, old(cache.disk.sector), region)
      ensures ok ==>
                && |writes| == n && Installing(n, old(cache.disk.sector), old(cache.view))
                && cache.Locked() == old(cache.Locked()) && cache.Dirty() == old(cache.Dirty()) - Logged()
      ensures roomy ==> ok && cache.Quiet() && Roomy(cache.Locked(), cache.Dirty(), 0)
      ensures old(cache.Quiet()) && ok ==> cache.Quiet()
    {
      hide Install, DirtySet, LockedSet, CacheOk, BufferCache.ListOk, Roomy;
      ok := true;
      writes := [];
      ghost var d, v, locked, dirty := cache.disk.sector, cache.view, cache.Locked(), cache.Dirty();
      for tail := 0 to n
        invariant Installed(tail, d, v, locked, dirty, roomy)
        invariant |writes| == tail && cache.disk.history == old(cache.disk.history) + writes
        invariant Installs(writes, d, region)
        invariant old(cache.Quiet()) ==> cache.Quiet()
      {
        ok := InstallNext(tail, d, v, locked, dirty, roomy);
        if !ok {
          return;
        }
        writes := writes + [cache.disk.sector];
      }
    }

    /** Outside the logged blocks there is no change waiting to be logged. */
    ghost predicate Settled()
      reads this, cache, cache.disk
    {
      && |cache.view| == |cache.disk.sector|
      && forall s | 0 <= s < |cache.view| && s !in Logged() :: cache.view[s] == cache.disk.sector[s]
    }

    /** With no block held, a block that is not logged is as on the card. */
    lemma SettledUnheld()
      requires Valid() && cache.Locked() == {}
      ensures Settled()
    {
      forall s | 0 <= s < |cache.view| && s !in Logged() ensures cache.view[s] == cache.disk.sector[s] {
        CleanSector(cache.buf, cache.slot, cache.view, cache.disk.sector, s);
      }
    }

    /** As many blocks are logged as the list has entries. */
    lemma LoggedSize()
      requires ListOk()
      ensures |Logged()| == n
    {
      SectorsSize(|cache.disk.sector|, region, block, n);
    }

    lemma LogIsClean()
      requires cache.Valid() && ListOk() && Unheld() && cache.Dirty() <= Logged()
      ensures forall s | 0 <= s < |cache.view| && InLog(region, s) :: cache.view[s] == cache.disk.sector[s]
    {
      forall s | 0 <= s < |cache.view| && InLog(region, s) ensures cache.view[s] == cache.disk.sector[s] {
        CleanSector(cache.buf, cache.slot, cache.view, cache.disk.sector, s);
      }
    }

    /** The first two steps of commit, up to the write that makes the transaction durable. */
    method WriteLogAndHead() returns (ok: bool, ghost before: seq<Image>, ghost after: seq<Image>)
      requires Valid() && Unheld() && Settled()
      modifies cache, cache.disk
      ensures cache.disk.history == old(cache.disk.history) + before + after
      ensures AllYield(before, old(cache.disk.sector), region)
      ensures ok ==>
                && |before| == n && after == [cache.disk.sector] && Installing(0, cache.disk.sector, cache.view)
                && Yields(cache.disk.sector, old(cache.view), region)
                && SameHome(cache.view, old(cache.view), region)
                && cache.Locked() == old(cache.Locked()) && cache.Dirty() == Logged()
      ensures !ok ==> after == []
      ensures old(cache.Room(0)) ==> ok && cache.Room(0)
      ensures old(cache.Quiet()) && ok ==> cache.Quiet()
    {
      hide DirtySet, LockedSet, CacheOk, BufferCache.ListOk, Roomy, Yields, Word, Holds, NewHeader;
      ghost var d, v := cache.disk.sector, cache.view;
      after := [];
      ok, before := WriteLog();
      forall i | 0 <= i < |before| ensures Yields(before[i], d, region) {
        BeforeHeader(before[i], d, region);
      }
      if ok {
        LogIsClean();
        ghost var d1, v1 := cache.disk.sector, cache.view;
        ok := WriteHead();
        if ok {
          after := [cache.disk.sector];
          HeaderCommits(d, v, d1, v1, cache.disk.sector, cache.view, region, n, block);
        }
      }
    }

    /** The last step of commit and of recovery: the installed log is erased. */
    method Erase(ghost d: Image, ghost v: Image) returns (ok: bool)
      requires Installing(n, d, v) && cache.Dirty() == {}
      modifies this`n, cache, cache.disk
      ensures cache.disk.history == old(cache.disk.history) + if ok then [cache.disk.sector] else []
      ensures ok ==>
                && Valid() && n == 0 && cache.Locked() == old(cache.Locked())
                && |d| == |v| == |cache.disk.sector|
                && HeaderOf(cache.disk.sector, region) == PutWord(HeaderOf(old(cache.disk.sector), region), 0, 0)
                && cache.disk.sector == Install(d, region, old(n))[HeaderSector(region) := HeaderOf(cache.disk.sector, region)]
                && cache.view == Install(v, region, old(n))[HeaderSector(region) := HeaderOf(cache.disk.sector, region)]
      ensures old(cache.Room(0)) ==> ok && cache.Quiet()
      ensures old(cache.Quiet()) && ok ==> cache.Quiet()
    {
      hide Install, HeaderOk, DirtySet, LockedSet, CacheOk, BufferCache.ListOk, Roomy;
      assert Logged() == Sectors(block, 0, n);
      n := 0;
      EmptyHeader(HeaderOf(cache.disk.sector, region), block);
      ok := WriteHead();
    }

    /** Makes the logged blocks durable.  `before` and `after` are the states of the card from the start
        on: recovery from the former finds the old blocks, from the latter the new ones. */
    method Commit() returns (ok: bool, ghost before: seq<Image>, ghost after: seq<Image>)
      requires Valid() && Unheld() && Settled()
      modifies this`n, cache, cache.disk
      ensures before != [] && before[0] == old(cache.disk.sector)
      ensures cache.disk.history == old(cache.disk.history) + before[1..] + after
      ensures AllYield(before, old(cache.disk.sector), region) && AllYield(after, old(cache.view), region)
      ensures after != [] ==> |before| == old(n) + 1
      ensures ok ==> (after != [] <==> old(n) > 0) && (before + after)[|before| + |after| - 1] == cache.disk.sector
      ensures ok ==>
                && Valid() && n == 0 && cache.Locked() == old(cache.Locked())
                && SameHome(cache.disk.sector, old(cache.view), region)
                && SameHome(cache.view, old(cache.view), region)
      ensures old(cache.Room(0)) ==> ok && cache.Quiet()
      ensures old(cache.Quiet()) && ok ==> cache.Quiet()
    {
      hide DirtySet, LockedSet, CacheOk, BufferCache.ListOk, Install, Recovered, Roomy, HeaderOk, Yields, Installs;
      ghost var v := cache.view;
      ok, before, after := true, [cache.disk.sector], [];
      EmptyLogYields(cache.disk.sector, cache.disk.sector, region);
      if n > 0 {
        ghost var roomy := cache.Room(0);
        ghost var writes;
        ok, writes, after := WriteLogAndHead();
        before := before + writes;
        if !ok {
          return;
        }
        ghost var d1, v1 := cache.disk.sector, cache.view;
        ghost var installs;
        ok, installs := InstallTrans(roomy);
        WhileInstalling(installs, d1, region, v);
        after := after + installs;
        if !ok {
          return;
        }
        ok := Erase(d1, v1);
        if ok {
          InstalledView(d1, v1, v, cache.disk.sector, cache.view, region);
          after := after + [cache.disk.sector];
        }
      }
    }

    /** Reads the header block into the in-memory header. */
    method ReadHead() returns (ok: bool)
      requires cache.Valid() && |block| == LOGSIZE && HeaderOk(cache.disk.sector, region)
      requires cache.Locked() == {} && cache.Dirty() == {}
      modifies this`n, this`block, cache, cache.disk
      ensures cache.Valid() && cache.disk.sector == old(cache.disk.sector) && cache.disk.history == old(cache.disk.history)
      ensures ok ==>
                && |block| == LOGSIZE && n <= LOGSIZE && HeaderListed(cache.disk.sector, region, n, block)
                && cache.view == old(cache.view) && cache.Locked() == {} && cache.Dirty() == {}
      ensures old(cache.Quiet()) ==> ok && cache.Quiet()
    {
      CleanSector(cache.buf, cache.slot, cache.view, cache.disk.sector, HeaderSector(region));
      var b;
      ok, b := cache.Bread(ROOTDEV, region.start);
      if ok {
        LoadHeader(cache.buf[b].data);
        cache.Brelse(b);
      }
    }

    method LoadHeader(h: Block)
      requires |block| == LOGSIZE && Entries(h) <= LOGSIZE
      modifies this`n, this`block
      ensures |block| == LOGSIZE && n == Entries(h) && forall i | 0 <= i < n :: block[i] == Entry(h, i)
    {
      hide Word;
      n := Word(h, 0);
      for i := 0 to n
        invariant |block| == LOGSIZE && n == Entries(h) && forall j | 0 <= j < i :: block[j] == Entry(h, j)
      {
        block := block[i := Word(h, 1 + i)];
      }
    }

    /** Recovery at boot, with a cold cache.  Every write leaves a point from which recovery can
        start over. */
    method RecoverFromLog() returns (ok: bool, ghost writes: seq<Image>)
      requires cache.Valid() && cache.Quiet() && cache.Locked() == {} && cache.Dirty() == {}
      requires |block| == LOGSIZE && HeaderOk(cache.disk.sector, region)
      modifies this`n, this`block, cache, cache.disk
      ensures ok && Valid() && n == 0 && cache.Locked() == {} && cache.Quiet()
      ensures cache.disk.sector == Recovered(old(cache.disk.sector), region) == cache.view
      ensures cache.disk.history == old(cache.disk.history) + writes
      ensures writes != [] && writes[|writes| - 1] == cache.disk.sector
      ensures forall i | 0 <= i < |writes| :: RecoveryPoint(old(cache.disk.sector), writes[i], region)
    {
      hide CacheOk, BufferCache.ListOk, HeaderOk, Roomy, RoomFor, Install;
      ghost var d := cache.disk.sector;
      ColdView();
      ok := ReadHead();
      ListFromHeader(d);
      EmptyRoom(Logged());
      InstallNone(d);
      ok, writes := InstallTrans(true);
      InstallKeepsLog(d, region, n);
      ok := Erase(d, d);
      writes := writes + [cache.disk.sector];
    }

    lemma InstallNone(d: Image)
      requires HeaderOk(d, region)
      ensures Install(d, region, 0) == d
    {
    }

    lemma ColdView()
      requires cache.Valid() && cache.Locked() == {} && cache.Dirty() == {}
      ensures cache.view == cache.disk.sector
    {
      forall s | 0 <= s < |cache.view| ensures cache.view[s] == cache.disk.sector[s] {
        CleanSector(cache.buf, cache.slot, cache.view, cache.disk.sector, s);
      }
    }

    lemma ListFromHeader(d: Image)
      requires HeaderOk(d, region) && |block| == LOGSIZE && n <= LOGSIZE && HeaderListed(d, region, n, block)
      requires cache.disk.sector == d
      ensures ListOk()
    {
      forall i | 0 <= i < n ensures block[i] + MBR_BASE < |d| && !InLog(region, block[i] + MBR_BASE) {
        assert HomeBlock(d, region, Entry(HeaderOf(d, region), i));
      }
      forall i, j | 0 <= i < j < n ensures block[i] != block[j] {
        assert Entry(HeaderOf(d, region), i) != Entry(HeaderOf(d, region), j);
      }
    }

    method FindEntry(x: nat) returns (i: nat)
      requires n <= |block|
      ensures i <= n && (i == n || block[i] == x) && forall j | 0 <= j < i :: block[j] != x
    {
      i := 0;
      while i < n && block[i] != x
        invariant i <= n && forall j | 0 <= j < i :: block[j] != x
      {
        i := i + 1;
      }
    }

    lemma HeldOnCard(b: nat)
      requires cache.Valid() && b < NBUF && cache.buf[b].locked
      ensures cache.buf[b].blockno < |cache.disk.sector|
    {
      assert BufOk(cache.buf, cache.slot, cache.view, b);
    }

    /** Adds a modified, held block to the transaction and pins it.  Not ok is the panic; its guard
        also fires for a block that is listed already. */
    method LogWrite(b: nat) returns (ok: bool)
      requires Valid() && b < NBUF && cache.buf[b].locked && cache.buf[b].valid
      requires MBR_BASE <= cache.buf[b].blockno < 0x1_0000_0000 && !InLog(region, cache.buf[b].blockno)
      modifies this`n, this`block, cache`buf
      ensures ok <==> old(n) < LOGSIZE && old(n) < region.size - 1
      ensures !ok ==> n == old(n) && block == old(block) && cache.buf == old(cache.buf)
      ensures ok ==>
                && Valid() && Logged() == old(Logged()) + {cache.buf[b].blockno}
                && n == old(n) + (if cache.buf[b].blockno in old(Logged()) then 0 else 1)
                && block[..old(n)] == old(block)[..old(n)]
                && cache.Locked() == old(cache.Locked())
                && cache.buf == old(cache.buf)[b := old(cache.buf)[b].(dirty := true)]
    {
      hide DirtySet, LockedSet, BufferCache.ListOk, Sectors, Listing, CacheOk, InLog, HeaderOf, Word, SectorOk, SlotOk, BufOk;
      if n >= LOGSIZE || n >= region.size - 1 {
        return false;
      }
      ok := true;
      var i := FindEntry(cache.buf[b].blockno - MBR_BASE);
      HeldOnCard(b);
      cache.Pin(b);
      EnterBlock(|cache.disk.sector|, region, block, n, cache.buf[b].blockno - MBR_BASE, i);
      block := block[i := cache.buf[b].blockno - MBR_BASE];
      if i == n {
        n := n + 1;
      }
    }

    /** New content for a held buffer, log_write, brelse.  Not ok is log_write's panic. */
    method LogRewrite(b: nat, ghost s: nat, data: Block) returns (ok: bool)
      requires Valid() && Holds(cache.buf, cache.slot, cache.view, b, s)
      requires MBR_BASE <= s < 0x1_0000_0000 && !InLog(region, s)
      modifies this`n, this`block, cache
      ensures ok <==> old(n) < LOGSIZE && old(n) < region.size - 1
      ensures ok ==>
                && Valid() && cache.Locked() == old(cache.Locked()) - {s} && Logged() == old(Logged()) + {s}
                && cache.view == old(cache.view)[s := data]
      ensures old(cache.Quiet()) && ok ==> cache.Quiet()
    {
      hide DirtySet, LockedSet, CacheOk, BufferCache.ListOk, Sectors, Listing, InLog, HeaderOf, Word;
      cache.Store(b, data);
      ok := LogWrite(b);
      if ok {
        cache.Brelse(b);
      }
    }
  }

  /** Room to install blocks: either they are all cached, or two more buffers are free. */
  ghost predicate RoomFor(locked: set<nat>, dirty: set<nat>, targets: set<nat>) {
    Roomy(locked, dirty, 0) && (targets <= dirty || Roomy(locked, dirty, 1))
  }

  lemma EmptyRoom(targets: set<nat>)
    ensures RoomFor({}, {}, targets)
  {
  }

  lemma RoomForOne(locked: set<nat>, dirty: set<nat>, targets: set<nat>, t: nat)
    ensures RoomFor(locked, dirty, targets) && t in targets ==>
              RoomFor(locked, dirty, {t}) && RoomFor(locked, dirty - {t}, targets - {t})
  {
    if RoomFor(locked, dirty, targets) && t in targets {
      FewerLeaveRoom(locked, dirty, dirty - {t}, 0);
      if Roomy(locked, dirty, 1) {
        FewerLeaveRoom(locked, dirty, dirty - {t}, 1);
      }
    }
  }
}
