/** The buffer cache of kern/bio.c.  Buffers are the elements of a fixed table; the LRU list
    runs through index links with the list head at index NBUF. */
module BufferCache {
  import opened Disk
  import opened Layout
  import opened CircularList

  const HEAD: nat := NBUF

  datatype Buf = Buf(valid: bool, dirty: bool, dev: nat, blockno: nat, refcnt: nat, data: Block, locked: bool)

  const ZeroBlock: Block := seq(BSIZE, _ => 0)
  const FreshBuf := Buf(false, false, 0, 0, 0, ZeroBlock, false)

  /** A buffer that bget may recycle. */
  predicate Unpinned(b: Buf) { b.refcnt == 0 && !b.dirty }

  ghost predicate ListOk(next: seq<nat>, prev: seq<nat>, order: seq<nat>) {
    && |next| == NBUF + 1 && |order| == NBUF
    && Linked(next, prev, HEAD, order)
    && (forall i | 0 <= i < NBUF :: i in order)
  }

  /** Key 0 marks a buffer that was never assigned; real sectors start at MBR_BASE. */
  ghost predicate BufOk(buf: seq<Buf>, slot: map<nat, nat>, view: Image, i: nat)
    requires i < |buf|
  {
    && (buf[i].blockno != 0 ==>
          && buf[i].dev == ROOTDEV && buf[i].blockno < |view|
          && buf[i].blockno in slot && slot[buf[i].blockno] == i)
    && (buf[i].valid ==> buf[i].blockno != 0 && buf[i].data == view[buf[i].blockno])
    && (buf[i].dirty ==> buf[i].valid)
    && (buf[i].locked ==> buf[i].refcnt > 0 && buf[i].blockno != 0)
  }

  ghost predicate SlotOk(buf: seq<Buf>, slot: map<nat, nat>, s: nat)
    requires s in slot
  {
    s != 0 && slot[s] < |buf| && buf[slot[s]].blockno == s
  }

  /** The logical content of a sector differs from the card only under a dirty or locked buffer. */
  ghost predicate SectorOk(buf: seq<Buf>, slot: map<nat, nat>, view: Image, sector: Image, s: nat)
    requires s < |view| == |sector|
  {
    view[s] != sector[s] ==>
      s in slot && slot[s] < |buf| && buf[slot[s]].valid && (buf[slot[s]].dirty || buf[slot[s]].locked)
  }

  ghost predicate CacheOk(buf: seq<Buf>, slot: map<nat, nat>, view: Image, sector: Image) {
    && |buf| == NBUF && |view| == |sector|
    && (forall i | 0 <= i < NBUF :: BufOk(buf, slot, view, i))
    && (forall s | s in slot :: SlotOk(buf, slot, s))
    && (forall s | 0 <= s < |view| :: SectorOk(buf, slot, view, sector, s))
  }

  ghost function DirtySet(buf: seq<Buf>, slot: map<nat, nat>): set<nat> {
    set s | s in slot && slot[s] < |buf| && buf[slot[s]].dirty
  }

  ghost function LockedSet(buf: seq<Buf>, slot: map<nat, nat>): set<nat> {
    set s | s in slot && slot[s] < |buf| && buf[slot[s]].locked
  }

  /** A valid, clean, unlocked buffer equals its sector, and no two buffers cache one sector. */
  lemma Coherence(buf: seq<Buf>, slot: map<nat, nat>, view: Image, sector: Image, i: nat, j: nat)
    requires CacheOk(buf, slot, view, sector) && i < NBUF && j < NBUF
    ensures buf[i].valid && !buf[i].dirty && !buf[i].locked ==>
              buf[i].blockno < |sector| && buf[i].data == sector[buf[i].blockno]
    ensures buf[i].blockno == buf[j].blockno != 0 ==> i == j
  {
    assert BufOk(buf, slot, view, i) && BufOk(buf, slot, view, j);
    if buf[i].valid {
      assert SectorOk(buf, slot, view, sector, buf[i].blockno);
    }
  }

  lemma {:induction false} InjectionSize(f: seq<nat>, s: set<nat>)
    requires forall i | 0 <= i < |f| :: f[i] in s
    requires forall i, j | 0 <= i < j < |f| :: f[i] != f[j]
    ensures |f| <= |s|
  {
    if f != [] {
      var last := f[|f| - 1];
      InjectionSize(f[..|f| - 1], s - {last});
    }
  }

  ghost predicate Roomy(locked: set<nat>, dirty: set<nat>, k: nat) {
    |locked| + |dirty| + k < NBUF
  }

  lemma FewerLeaveRoom(locked: set<nat>, dirty: set<nat>, fewer: set<nat>, k: nat)
    requires fewer <= dirty && Roomy(locked, dirty, k)
    ensures Roomy(locked, fewer, k)
  {
    assert dirty == fewer + (dirty - fewer);
  }

  /** If nobody but lock holders refers to buffers, running out of buffers means that the
      locked and dirty sectors alone fill the table. */
  lemma Exhaustion(buf: seq<Buf>, slot: map<nat, nat>, view: Image, sector: Image)
    requires CacheOk(buf, slot, view, sector)
    requires forall i | 0 <= i < NBUF :: buf[i].refcnt > 0 ==> buf[i].locked
    requires forall i | 0 <= i < NBUF :: !Unpinned(buf[i])
    ensures |LockedSet(buf, slot)| + |DirtySet(buf, slot)| >= NBUF
  {
    var locked, dirty := LockedSet(buf, slot), DirtySet(buf, slot);
    var f := seq(NBUF, i requires 0 <= i < NBUF => buf[i].blockno);
    forall i | 0 <= i < |f| ensures f[i] in locked + dirty {
      assert BufOk(buf, slot, view, i);
    }
    forall i, j | 0 <= i < j < |f| ensures f[i] != f[j] {
      Coherence(buf, slot, view, sector, i, j);
      assert BufOk(buf, slot, view, i);
    }
    InjectionSize(f, locked + dirty);
    assert |locked + dirty| == |locked| + |dirty| - |locked * dirty|;
  }

  /** A sector that is neither locked nor dirty holds its logical content. */
  lemma CleanSector(buf: seq<Buf>, slot: map<nat, nat>, view: Image, sector: Image, s: nat)
    requires CacheOk(buf, slot, view, sector) && s < |view|
    ensures s !in LockedSet(buf, slot) && s !in DirtySet(buf, slot) ==> view[s] == sector[s]
  {
    assert SectorOk(buf, slot, view, sector, s);
  }

  /** `s` added to or removed from a set of sectors. */
  function Mark(sectors: set<nat>, s: nat, present: bool): set<nat> {
    if present then sectors + {s} else sectors - {s}
  }

  /** Changing one assigned buffer, together with the logical and stored content of its sector. */
  lemma Touch(buf: seq<Buf>, slot: map<nat, nat>, view: Image, sector: Image, b: nat, x: Buf, v: Block, d: Block)
    requires CacheOk(buf, slot, view, sector) && b < NBUF && buf[b].blockno != 0
    requires x.blockno == buf[b].blockno && x.dev == ROOTDEV
    requires (x.valid ==> x.data == v) && (x.dirty ==> x.valid) && (x.locked ==> x.refcnt > 0)
    requires v != d ==> x.valid && (x.dirty || x.locked)
    ensures x.blockno < |view|
    ensures CacheOk(buf[b := x], slot, view[x.blockno := v], sector[x.blockno := d])
    ensures LockedSet(buf[b := x], slot) == Mark(LockedSet(buf, slot), x.blockno, x.locked)
    ensures DirtySet(buf[b := x], slot) == Mark(DirtySet(buf, slot), x.blockno, x.dirty)
  {
    assert BufOk(buf, slot, view, b);
    var buf', view', sector' := buf[b := x], view[x.blockno := v], sector[x.blockno := d];
    forall i | 0 <= i < NBUF ensures BufOk(buf', slot, view', i) {
      assert BufOk(buf, slot, view, i);
    }
    forall s | s in slot ensures SlotOk(buf', slot, s) && (s != x.blockno ==> slot[s] != b) {
      assert SlotOk(buf, slot, s);
    }
    forall s | 0 <= s < |view| ensures SectorOk(buf', slot, view', sector', s) {
      assert SectorOk(buf, slot, view, sector, s);
    }
  }

  /** Giving an unpinned buffer to a sector that no buffer caches. */
  lemma Recycle(buf: seq<Buf>, slot: map<nat, nat>, view: Image, sector: Image, s: nat, b: nat, x: Buf)
    requires CacheOk(buf, slot, view, sector) && b < NBUF && Unpinned(buf[b])
    requires 0 < s < |view| && s !in slot
    requires x.blockno == s && x.dev == ROOTDEV && !x.valid && !x.dirty && x.refcnt > 0 && x.locked
    ensures
      var slot' := (slot - {buf[b].blockno})[s := b];
      && CacheOk(buf[b := x], slot', view, sector)
      && LockedSet(buf[b := x], slot') == LockedSet(buf, slot) + {s}
      && DirtySet(buf[b := x], slot') == DirtySet(buf, slot)
  {
    assert BufOk(buf, slot, view, b);
    var buf', slot' := buf[b := x], (slot - {buf[b].blockno})[s := b];
    forall i | 0 <= i < NBUF ensures BufOk(buf', slot', view, i) {
      assert BufOk(buf, slot, view, i);
    }
    forall t | t in slot ensures t != buf[b].blockno ==> slot[t] != b {
      assert SlotOk(buf, slot, t);
    }
    forall t | t in slot' ensures SlotOk(buf', slot', t) {
      if t != s {
        assert SlotOk(buf, slot, t);
      }
    }
    forall t | 0 <= t < |view| ensures SectorOk(buf', slot', view, sector, t) {
      assert SectorOk(buf, slot, view, sector, t);
    }
  }

  /** Buffer b is locked and shows the logical content of sector s. */
  ghost predicate Holds(buf: seq<Buf>, slot: map<nat, nat>, view: Image, b: nat, s: nat) {
    && b < |buf| && s < |view|
    && buf[b].blockno == s && buf[b].valid && buf[b].locked && buf[b].data == view[s]
    && s in slot && slot[s] == b
  }

  /** b is the least recently used buffer that may be recycled. */
  ghost predicate LastUnpinned(buf: seq<Buf>, order: seq<nat>, b: nat) {
    exists k | 0 <= k < |order| ::
      && order[k] == b && b < |buf| && Unpinned(buf[b])
      && forall j | k < j < |order| :: order[j] < |buf| ==> !Unpinned(buf[order[j]])
  }

  function Without(items: seq<nat>, k: nat): (r: seq<nat>)
    requires k < |items|
    ensures Inserted(r, k, items[k], items)
  {
    items[..k] + items[k + 1..]
  }

  /** The k-th item moved to the front. */
  function Front(items: seq<nat>, k: nat): seq<nat>
    requires k < |items|
  {
    [items[k]] + Without(items, k)
  }

  lemma FrontIs(items: seq<nat>, k: nat)
    requires k < |items|
    ensures Front(items, k) == [items[k]] + Without(items, k)
  {
  }

  lemma FrontKeepsAll(items: seq<nat>, k: nat)
    requires k < |items|
    ensures forall x | x in items :: x in Front(items, k)
    ensures Front(items, k) == [items[k]] + items[..k] + items[k + 1..]
  {
    forall x | x in items ensures x in Front(items, k) {
      var i :| 0 <= i < |items| && items[i] == x;
      assert x == Front(items, k)[if i < k then i + 1 else if i == k then 0 else i];
    }
  }

  class Bcache {
    const disk: SdCard
    var buf: seq<Buf>
    var next: seq<nat>
    var prev: seq<nat>
    ghost var order: seq<nat>       // the buffers, most recently used first
    ghost var slot: map<nat, nat>   // the buffer assigned to a sector
    ghost var view: Image           // the card overlaid with cached writes

    ghost predicate Valid()
      reads this, disk
    {
      && |buf| == NBUF && |view| == |disk.sector|
      && ListOk(next, prev, order) && CacheOk(buf, slot, view, disk.sector)
    }

    ghost function Dirty(): set<nat> reads this { DirtySet(buf, slot) }

    ghost function Locked(): set<nat> reads this { LockedSet(buf, slot) }

    /** No process other than a lock holder refers to a buffer. */
    ghost predicate Quiet() reads this {
      forall i | 0 <= i < |buf| :: buf[i].refcnt == if buf[i].locked then 1 else 0
    }

    /** Locked and dirty sectors leave more than k buffers over. */
    ghost predicate Room(k: nat) reads this {
      Quiet() && Roomy(Locked(), Dirty(), k)
    }

    constructor Binit(disk: SdCard)
      ensures this.disk == disk
      ensures Valid() && Quiet() && Dirty() == {} && Locked() == {}
      ensures view == disk.sector
      ensures forall i | 0 <= i < NBUF :: buf[i] == FreshBuf && order[i] == NBUF - 1 - i
    {
      this.disk := disk;
      buf := seq(NBUF, _ => FreshBuf);
      next := seq(NBUF + 1, _ => HEAD);
      prev := seq(NBUF + 1, _ => HEAD);
      order := [];
      slot := map[];
      view := disk.sector;
      new;
      for b: nat := 0 to NBUF
        invariant |next| == NBUF + 1 && Linked(next, prev, HEAD, order)
        invariant |order| == b && forall i | 0 <= i < b :: order[i] == b - 1 - i
        invariant buf == seq(NBUF, _ => FreshBuf) && slot == map[] && view == disk.sector
      {
        ghost var next0, prev0, order0 := next, prev, order;
        assert LinkedAt(next, prev, HEAD, order, -1);
        next := next[b := next[HEAD]];
        prev := prev[b := HEAD];
        prev := prev[next[HEAD] := b];
        next := next[HEAD := b];
        order := [b] + order;
        LinkBetween(next0, prev0, next, prev, HEAD, order0, 0, b, order);
      }
      forall i | 0 <= i < NBUF ensures i in order {
        assert order[NBUF - 1 - i] == i;
      }
    }

    /** The first loop of bget: the buffer assigned to a sector, or the list head. */
    method Scan(dev: nat, blockno: nat) returns (b: nat)
      requires Valid() && dev == ROOTDEV && 0 < blockno < |disk.sector|
      ensures if blockno in slot then b == slot[blockno] else b == HEAD
    {
      ghost var k := 0;
      assert blockno in slot ==> SlotOk(buf, slot, blockno) && slot[blockno] in order;
      assert LinkedAt(next, prev, HEAD, order, -1);
      b := next[HEAD];
      while b != HEAD
        invariant 0 <= k <= NBUF && b == Node(HEAD, order, k)
        invariant forall j | 0 <= j < k :: buf[order[j]].blockno != blockno
        decreases NBUF - k
      {
        assert BufOk(buf, slot, view, b);
        if buf[b].dev == dev && buf[b].blockno == blockno {
          return;
        }
        assert LinkedAt(next, prev, HEAD, order, k);
        b, k := next[b], k + 1;
      }
    }

    /** The second loop of bget: the least recently used unpinned buffer, or the list head. */
    method Victim() returns (b: nat)
      requires Valid()
      ensures if b == HEAD then forall i | 0 <= i < NBUF :: !Unpinned(buf[i]) else LastUnpinned(buf, order, b)
    {
      ghost var k := NBUF;
      assert LinkedAt(next, prev, HEAD, order, NBUF - 1);
      b := prev[HEAD];
      while b != HEAD
        invariant 0 <= k <= NBUF && b == Node(HEAD, order, k - 1)
        invariant forall j | k <= j < NBUF :: !Unpinned(buf[order[j]])
        decreases k
      {
        if buf[b].refcnt == 0 && !buf[b].dirty {
          return;
        }
        assert LinkedAt(next, prev, HEAD, order, k - 2);
        b, k := prev[b], k - 1;
      }
      forall i | 0 <= i < NBUF ensures !Unpinned(buf[i]) {
        assert i in order;
      }
    }

    /** The buffer for a sector, locked.  Buffers are searched from the front of the LRU list;
        if none has the key, the last unpinned one is recycled.  Not ok is the panic of the
        C code when every buffer is referenced or dirty. */
    method Bget(dev: nat, blockno: nat) returns (ok: bool, b: nat)
      requires Valid() && dev == ROOTDEV && 0 < blockno < |disk.sector|
      requires blockno !in Locked()
      modifies this`buf, this`slot
      ensures Valid() && Dirty() == old(Dirty())
      ensures ok <==> blockno in old(slot) || exists i | 0 <= i < NBUF :: old(buf)[i].refcnt == 0 && !old(buf)[i].dirty
      ensures !ok ==> buf == old(buf) && slot == old(slot)
      ensures ok ==> b < NBUF && Locked() == old(Locked()) + {blockno}
      ensures ok && blockno in old(slot) ==>
                && b == old(slot)[blockno] && slot == old(slot) && old(buf)[b].blockno == blockno
                && buf == old(buf)[b := old(buf)[b].(refcnt := old(buf)[b].refcnt + 1, locked := true)]
      ensures ok && blockno !in old(slot) ==>
                && old(buf)[b].refcnt == 0 && !old(buf)[b].dirty
                && (exists k :: 0 <= k < |order| && order[k] == b
                      && forall j | k < j < |order| :: order[j] < NBUF ==> old(buf)[order[j]].refcnt > 0 || old(buf)[order[j]].dirty)
                && slot == (old(slot) - {old(buf)[b].blockno})[blockno := b]
                && buf == old(buf)[b := Buf(false, false, dev, blockno, 1, old(buf)[b].data, true)]
      ensures old(Quiet()) ==> Quiet()
      ensures old(Room(0)) ==> ok
      ensures forall i, s | Holds(old(buf), old(slot), view, i, s) :: Holds(buf, slot, view, i, s)
    {
      ok := true;
      b := Scan(dev, blockno);
      if b != HEAD {
        assert SlotOk(buf, slot, blockno) && BufOk(buf, slot, view, b);
        assert view[blockno := view[blockno]] == view;
        assert disk.sector[blockno := disk.sector[blockno]] == disk.sector;
        assert SectorOk(buf, slot, view, disk.sector, blockno);
        var x := buf[b].(refcnt := buf[b].refcnt + 1, locked := true);
        Touch(buf, slot, view, disk.sector, b, x, view[blockno], disk.sector[blockno]);
        buf := buf[b := x];
      } else {
        b := Victim();
        if b == HEAD {
          ok := false;
          if Quiet() {
            Exhaustion(buf, slot, view, disk.sector);
          }
        } else {
          var x := Buf(false, false, dev, blockno, 1, buf[b].data, true);
          assert BufOk(buf, slot, view, b);
          Recycle(buf, slot, view, disk.sector, blockno, b, x);
          slot := (slot - {buf[b].blockno})[blockno := b];
          buf := buf[b := x];
        }
      }
    }

    /** sdrw: a dirty buffer is written to its sector, an invalid one is read from it. */
    method Sdrw(b: nat)
      requires Valid() && b < NBUF && buf[b].locked && (buf[b].dirty || !buf[b].valid)
      modifies this`buf, disk
      ensures Valid() && Locked() == old(Locked()) && Dirty() == old(Dirty()) - {buf[b].blockno}
      ensures buf[b].blockno == old(buf)[b].blockno < |view|
      ensures buf == old(buf)[b := old(buf)[b].(valid := true, dirty := false, data := view[buf[b].blockno])]
      ensures if old(buf)[b].dirty
              then disk.sector == old(disk.sector)[buf[b].blockno := view[buf[b].blockno]]
                && disk.history == old(disk.history) + [disk.sector]
              else disk.sector == old(disk.sector) && disk.history == old(disk.history)
    {
      ghost var s := buf[b].blockno;
      assert BufOk(buf, slot, view, b) && SectorOk(buf, slot, view, disk.sector, s);
      assert SlotOk(buf, slot, s);
      assert view[s := view[s]] == view && (buf[b].valid || disk.sector[s := view[s]] == disk.sector);
      var x := buf[b].(valid := true, dirty := false);
      Touch(buf, slot, view, disk.sector, b, x.(data := view[s]), view[s], view[s]);
      if buf[b].dirty {
        disk.Write(buf[b].blockno, buf[b].data);
      } else {
        var d := disk.Read(buf[b].blockno);
        x := x.(data := d);
      }
      buf := buf[b := x];
    }

    /** The second half of bread: a buffer without data is filled from the card. */
    method Fill(b: nat)
      requires Valid() && b < NBUF && buf[b].locked
      modifies this`buf, disk
      ensures Valid() && Locked() == old(Locked()) && Dirty() == old(Dirty())
      ensures disk.sector == old(disk.sector) && disk.history == old(disk.history)
      ensures Holds(buf, slot, view, b, old(buf)[b].blockno)
      ensures forall i, s | Holds(old(buf), slot, view, i, s) :: Holds(buf, slot, view, i, s)
      ensures old(Quiet()) ==> Quiet()
    {
      assert BufOk(buf, slot, view, b);
      if !buf[b].valid {
        Sdrw(b);
      }
    }

    /** A locked buffer holding the logical content of a block. */
    method Bread(dev: nat, blockno: nat) returns (ok: bool, b: nat)
      requires Valid() && dev == ROOTDEV && blockno + MBR_BASE < |disk.sector|
      requires blockno + MBR_BASE !in Locked()
      modifies this`buf, this`slot, disk
      ensures Valid() && disk.sector == old(disk.sector) && disk.history == old(disk.history)
      ensures !ok ==> buf == old(buf) && slot == old(slot)
      ensures ok ==>
                && Holds(buf, slot, view, b, blockno + MBR_BASE)
                && Locked() == old(Locked()) + {blockno + MBR_BASE}
      ensures Dirty() == old(Dirty())
      ensures view == old(view) && forall i, s | Holds(old(buf), old(slot), view, i, s) :: Holds(buf, slot, view, i, s)
      ensures ok && blockno + MBR_BASE !in old(slot) ==>
                && old(buf)[b].refcnt == 0 && !old(buf)[b].dirty
                && exists k :: 0 <= k < |order| && order[k] == b
                     && forall j | k < j < |order| :: order[j] < NBUF ==> old(buf)[order[j]].refcnt > 0 || old(buf)[order[j]].dirty
      ensures old(Quiet()) ==> Quiet()
      ensures blockno + MBR_BASE in old(slot) ==> ok
      ensures old(Room(0)) ==> ok
    {
      ok, b := Bget(dev, blockno + MBR_BASE);
      if ok {
        Fill(b);
      }
    }

    /** The caller's memmove into the data of a buffer that it holds. */
    method Store(b: nat, data: Block)
      requires Valid() && b < NBUF && buf[b].locked && buf[b].valid
      modifies this`buf, this`view
      ensures Valid() && Locked() == old(Locked()) && Dirty() == old(Dirty())
      ensures buf == old(buf)[b := old(buf)[b].(data := data)]
      ensures buf[b].blockno < |old(view)| && view == old(view)[buf[b].blockno := data]
      ensures old(Quiet()) ==> Quiet()
    {
      assert BufOk(buf, slot, view, b) && SlotOk(buf, slot, buf[b].blockno);
      ghost var s := buf[b].blockno;
      var x := buf[b].(data := data);
      Touch(buf, slot, view, disk.sector, b, x, data, disk.sector[s]);
      assert disk.sector[s := disk.sector[s]] == disk.sector;
      buf := buf[b := x];
      view := view[s := data];
    }

    /** Setting B_DIRTY: the buffer stays cached until it is written. */
    method Pin(b: nat)
      requires Valid() && b < NBUF && buf[b].locked && buf[b].valid
      modifies this`buf
      ensures Valid() && Locked() == old(Locked()) && Dirty() == old(Dirty()) + {buf[b].blockno}
      ensures buf == old(buf)[b := old(buf)[b].(dirty := true)]
      ensures old(Quiet()) ==> Quiet()
    {
      ghost var s := buf[b].blockno;
      assert BufOk(buf, slot, view, b) && SlotOk(buf, slot, s);
      var x := buf[b].(dirty := true);
      Touch(buf, slot, view, disk.sector, b, x, view[s], disk.sector[s]);
      assert disk.sector[s := disk.sector[s]] == disk.sector && view[s := view[s]] == view;
      buf := buf[b := x];
    }

    /** Write through to the card.  The C code panics unless the buffer is locked. */
    method Bwrite(b: nat)
      requires Valid() && b < NBUF && buf[b].locked && buf[b].valid
      modifies this`buf, disk
      ensures Valid() && Locked() == old(Locked()) && Dirty() == old(Dirty()) - {buf[b].blockno}
      ensures buf == old(buf)[b := old(buf)[b].(dirty := false)]
      ensures buf[b].blockno < |view| && disk.sector == old(disk.sector)[buf[b].blockno := view[buf[b].blockno]]
      ensures disk.history == old(disk.history) + [disk.sector]
      ensures old(Quiet()) ==> Quiet()
    {
      assert BufOk(buf, slot, view, b);
      Pin(b);
      Sdrw(b);
    }

    /** Unlock; when nobody refers to the buffer any more it moves to the front of the LRU list.
        The caller has logged or written any change that it made. */
    method Brelse(b: nat)
      requires Valid() && b < NBUF && buf[b].locked
      requires buf[b].blockno < |view| == |disk.sector|
      requires buf[b].dirty || view[buf[b].blockno] == disk.sector[buf[b].blockno]
      modifies this`buf, this`next, this`prev, this`order
      ensures Valid() && Locked() == old(Locked()) - {buf[b].blockno} && Dirty() == old(Dirty())
      ensures buf == old(buf)[b := old(buf)[b].(locked := false, refcnt := buf[b].refcnt)]
      ensures buf[b].refcnt == old(buf)[b].refcnt - 1
      ensures if buf[b].refcnt > 0 then order == old(order)
              else exists k :: 0 <= k < NBUF && old(order)[k] == b && order == [b] + old(order)[..k] + old(order)[k + 1..]
      ensures old(Quiet()) ==> Quiet()
    {
      ghost var s := buf[b].blockno;
      assert BufOk(buf, slot, view, b) && SlotOk(buf, slot, s);
      var x := buf[b].(locked := false, refcnt := buf[b].refcnt - 1);
      Touch(buf, slot, view, disk.sector, b, x, view[s], disk.sector[s]);
      assert disk.sector[s := disk.sector[s]] == disk.sector && view[s := view[s]] == view;
      buf := buf[b := x];
      if buf[b].refcnt == 0 {
        MoveToFront(b);
      }
    }

    /** The relinking at the end of brelse. */
    method MoveToFront(b: nat)
      requires ListOk(next, prev, order) && b < NBUF
      modifies this`next, this`prev, this`order
      ensures ListOk(next, prev, order)
      ensures exists k :: 0 <= k < NBUF && old(order)[k] == b && order == [b] + old(order)[..k] + old(order)[k + 1..]
    {
      hide Without, Front;
      ghost var next0, prev0, order0 := next, prev, order;
      assert b in order;
      ghost var k :| 0 <= k < NBUF && order[k] == b;
      assert LinkedAt(next, prev, HEAD, order, k) && LinkedAt(next, prev, HEAD, order, k - 1);
      prev := prev[next[b] := prev[b]];
      next := next[prev[b] := next[b]];
      order := Without(order, k);
      Unlink(next0, prev0, next, prev, HEAD, order0, k, order);
      ghost var next1, prev1, order1 := next, prev, order;
      assert LinkedAt(next, prev, HEAD, order, -1);
      next := next[b := next[HEAD]];
      prev := prev[b := HEAD];
      prev := prev[next[HEAD] := b];
      next := next[HEAD := b];
      order := [b] + order;
      assert order == Front(order0, k) by { FrontIs(order0, k); }
      LinkBetween(next1, prev1, next, prev, HEAD, order1, 0, b, order);
      FrontKeepsAll(order0, k);
    }
  }
}
