/** What the on-disk redo log of kern/log.c means: the card that recovery would leave behind.
    Everything here is about card images; Log.dfy proves that the kernel writes such images. */
module Recovery {
  import opened Disk
  import opened Layout

  /** Where the superblock puts the log: a header block, then size-1 content blocks. */
  datatype Region = Region(start: nat, size: nat)

  predicate InLog(g: Region, s: nat) { g.start + MBR_BASE <= s < g.start + g.size + MBR_BASE }

  function HeaderSector(g: Region): nat { g.start + MBR_BASE }

  function SlotSector(g: Region, i: nat): nat { g.start + i + 1 + MBR_BASE }

  function HeaderOf(d: Image, g: Region): Block
    requires HeaderSector(g) < |d|
  {
    d[HeaderSector(g)]
  }

  /** lh->n. */
  function Entries(h: Block): nat { Word(h, 0) }

  /** lh->block[i]. */
  function Entry(h: Block, i: nat): (b: nat)
    requires i < LOGSIZE
    ensures b < 0x1_0000_0000
  {
    Word(h, 1 + i)
  }

  ghost predicate HomeBlock(d: Image, g: Region, b: int) {
    0 <= b && b + MBR_BASE < |d| && !InLog(g, b + MBR_BASE)
  }

  /** A header lists distinct blocks outside the log, one for each content block in use. */
  ghost predicate HeaderOk(d: Image, g: Region) {
    && 0 < g.size && g.start + g.size + MBR_BASE <= |d|
    && var h := HeaderOf(d, g);
    && Entries(h) <= LOGSIZE && Entries(h) < g.size
    && (forall i | 0 <= i < Entries(h) :: HomeBlock(d, g, Entry(h, i)))
    && (forall i, j | 0 <= i < j < Entries(h) :: Entry(h, i) != Entry(h, j))
  }

  function Target(d: Image, g: Region, i: nat): int
    requires HeaderSector(g) < |d| && i < LOGSIZE
  {
    Entry(HeaderOf(d, g), i) + MBR_BASE
  }

  /** The image after the first k logged blocks were copied home. */
  ghost function Install(d: Image, g: Region, k: nat): (r: Image)
    requires HeaderOk(d, g) && k <= Entries(HeaderOf(d, g))
    ensures |r| == |d|
  {
    if k == 0 then d
    else
      assert HomeBlock(d, g, Entry(HeaderOf(d, g), k - 1));
      Install(d, g, k - 1)[Target(d, g, k - 1) := d[SlotSector(g, k - 1)]]
  }

  function Cleared(d: Image, g: Region): (r: Image)
    requires HeaderSector(g) < |d|
    ensures |r| == |d|
  {
    d[HeaderSector(g) := PutWord(HeaderOf(d, g), 0, 0)]
  }

  /** The image that an undisturbed run of recover_from_log leaves. */
  ghost function Recovered(d: Image, g: Region): (r: Image)
    requires HeaderOk(d, g)
    ensures |r| == |d|
  {
    Cleared(Install(d, g, Entries(HeaderOf(d, g))), g)
  }

  /** Two images agree on every sector outside the log. */
  ghost predicate SameHome(a: Image, b: Image, g: Region) {
    |a| == |b| && forall s | 0 <= s < |a| && !InLog(g, s) :: a[s] == b[s]
  }

  /** Install copies content block j over the j-th target and touches nothing else. */
  lemma {:induction false} InstallAt(d: Image, g: Region, k: nat)
    requires HeaderOk(d, g) && k <= Entries(HeaderOf(d, g))
    ensures forall j | 0 <= j < k :: 0 <= Target(d, g, j) < |d| && Install(d, g, k)[Target(d, g, j)] == d[SlotSector(g, j)]
    ensures forall s | 0 <= s < |d| && (forall j | 0 <= j < k :: s != Target(d, g, j)) :: Install(d, g, k)[s] == d[s]
    ensures forall s | 0 <= s < |d| && InLog(g, s) :: Install(d, g, k)[s] == d[s]
  {
    hide Word;
    if k > 0 {
      InstallAt(d, g, k - 1);
      assert HomeBlock(d, g, Entry(HeaderOf(d, g), k - 1));
      assert forall j | 0 <= j < k - 1 :: Target(d, g, j) != Target(d, g, k - 1);
    }
  }

  /** The card image after a failure during recovery from d, and after recovery completed. */
  ghost predicate RecoveryPoint(d: Image, d': Image, g: Region)
    requires HeaderOk(d, g)
  {
    || (exists k | 0 <= k <= Entries(HeaderOf(d, g)) :: d' == Install(d, g, k))
    || d' == Recovered(d, g)
  }

  lemma InstallKeepsLog(d: Image, g: Region, k: nat)
    requires HeaderOk(d, g) && k <= Entries(HeaderOf(d, g))
    ensures HeaderOf(Install(d, g, k), g) == HeaderOf(d, g)
    ensures HeaderOk(Install(d, g, k), g)
  {
    hide Word;
    var d' := Install(d, g, k);
    InstallAt(d, g, k);
    assert InLog(g, HeaderSector(g));
    assert forall i | 0 <= i < Entries(HeaderOf(d, g)) :: HomeBlock(d, g, Entry(HeaderOf(d, g), i));
  }

  /** Outside the log, recovery depends on the log and on the blocks that it does not overwrite. */
  lemma RecoveredHome(d: Image, g: Region, s: nat)
    requires HeaderOk(d, g) && s < |d| && !InLog(g, s)
    ensures forall j | 0 <= j < Entries(HeaderOf(d, g)) && s == Target(d, g, j) :: Recovered(d, g)[s] == d[SlotSector(g, j)]
    ensures (forall j | 0 <= j < Entries(HeaderOf(d, g)) :: s != Target(d, g, j)) ==> Recovered(d, g)[s] == d[s]
  {
    hide Word;
    InstallAt(d, g, Entries(HeaderOf(d, g)));
    assert InLog(g, HeaderSector(g));
  }

  lemma InstallTwice(d: Image, g: Region, k: nat)
    requires HeaderOk(d, g) && k <= Entries(HeaderOf(d, g))
    ensures HeaderOk(Install(d, g, k), g)
    ensures SameHome(Recovered(Install(d, g, k), g), Recovered(d, g), g)
  {
    hide Word;
    var d', n := Install(d, g, k), Entries(HeaderOf(d, g));
    InstallKeepsLog(d, g, k);
    InstallAt(d, g, k);
    forall s | 0 <= s < |d| && !InLog(g, s) ensures Recovered(d', g)[s] == Recovered(d, g)[s] {
      RecoveredHome(d, g, s);
      RecoveredHome(d', g, s);
      if j :| 0 <= j < n && s == Target(d, g, j) {
        assert Target(d', g, j) == s && InLog(g, SlotSector(g, j));
      } else {
        assert forall j | 0 <= j < n :: Target(d', g, j) == Target(d, g, j) != s;
      }
    }
  }

  /** Recovering an image that recovery already cleared changes nothing. */
  lemma RecoveredIsStable(d: Image, g: Region)
    requires HeaderOk(d, g)
    ensures HeaderOk(Recovered(d, g), g) && SameHome(Recovered(Recovered(d, g), g), Recovered(d, g), g)
  {
  }

  /** A failure at any point of recovery loses nothing: recovering again gives the same blocks. */
  lemma RecoveryRestarts(d: Image, d': Image, g: Region)
    requires HeaderOk(d, g) && RecoveryPoint(d, d', g)
    ensures HeaderOk(d', g) && SameHome(Recovered(d', g), Recovered(d, g), g)
  {
    hide Word;
    if d' == Recovered(d, g) {
      RecoveredIsStable(d, g);
    } else {
      var k :| 0 <= k <= Entries(HeaderOf(d, g)) && d' == Install(d, g, k);
      InstallTwice(d, g, k);
    }
  }

  /** Recovery that fails and restarts again and again: each image is a point of recovery from
      the one before. */
  ghost predicate RestartChain(ds: seq<Image>, g: Region) {
    && (forall i | 0 <= i < |ds| :: HeaderOk(ds[i], g))
    && (forall i | 0 <= i < |ds| - 1 :: RecoveryPoint(ds[i], ds[i + 1], g))
  }

  lemma {:induction false} RestartsConverge(ds: seq<Image>, g: Region)
    requires ds != [] && RestartChain(ds, g)
    ensures SameHome(Recovered(ds[|ds| - 1], g), Recovered(ds[0], g), g)
  {
    hide Word;
    if |ds| > 1 {
      var m := |ds| - 1;
      assert RestartChain(ds[..m], g) by {
        assert forall i | 0 <= i < m :: ds[..m][i] == ds[i];
      }
      RestartsConverge(ds[..m], g);
      assert RecoveryPoint(ds[m - 1], ds[m], g);
      RecoveryRestarts(ds[m - 1], ds[m], g);
    }
  }

  /** Recovery from d yields the home blocks of `a`. */
  ghost predicate Yields(d: Image, a: Image, g: Region) {
    HeaderOk(d, g) && SameHome(Recovered(d, g), a, g)
  }

  ghost predicate AllYield(ds: seq<Image>, a: Image, g: Region) {
    forall i | 0 <= i < |ds| :: Yields(ds[i], a, g)
  }

  /** Crash atomicity: a commit wrote some states that yield the old contents and then some that yield
      the new ones.  Whichever of them a failure leaves, and however often recovery fails and starts
      over, the home blocks end up all old before the switch, and all new from it on. */
  lemma CrashAtomicity(before: seq<Image>, after: seq<Image>, was: Image, becomes: Image, g: Region, i: nat, ds: seq<Image>)
    requires AllYield(before, was, g) && AllYield(after, becomes, g) && i < |before| + |after|
    requires ds != [] && ds[0] == (before + after)[i] && RestartChain(ds, g)
    ensures SameHome(Recovered(ds[|ds| - 1], g), if i < |before| then was else becomes, g)
  {
    RestartsConverge(ds, g);
    assert if i < |before| then Yields(before[i], was, g) else Yields(after[i - |before|], becomes, g);
  }

  /** write_head: the list goes into the words 0..n of the header block, the rest is kept. */
  function NewHeader(h: Block, n: nat, block: seq<nat>): (r: Block)
    requires n <= LOGSIZE <= |block| && forall i | 0 <= i < n :: block[i] < 0x1_0000_0000
    ensures Entries(r) == n && forall i | 0 <= i < n :: Entry(r, i) == block[i]
    ensures forall j | n < j < NINDIRECT :: Word(r, j) == Word(h, j)
  {
    HeaderWords(h, [n] + block[..n]);
    PutWords(h, 0, [n] + block[..n])
  }

  lemma EmptyHeader(h: Block, block: seq<nat>)
    requires LOGSIZE <= |block|
    ensures NewHeader(h, 0, block) == PutWord(h, 0, 0)
  {
    var words: seq<nat> := [0];
    assert [0] + block[..0] == words && words[..0] == [];
    assert PutWords(h, 0, words[..0]) == h;
  }

  lemma HeaderWords(h: Block, ws: seq<nat>)
    requires |ws| <= NINDIRECT && forall i | 0 <= i < |ws| :: ws[i] < 0x1_0000_0000
    ensures forall i | 0 <= i < NINDIRECT :: Word(PutWords(h, 0, ws), i) == if i < |ws| then ws[i] else Word(h, i)
  {
    hide Word, PutWords;
    forall i | 0 <= i < NINDIRECT ensures Word(PutWords(h, 0, ws), i) == if i < |ws| then ws[i] else Word(h, i) {
      PutThenWords(h, 0, ws, i);
    }
  }

  /** The in-memory header and the one on the card say the same. */
  ghost predicate HeaderListed(d: Image, g: Region, n: nat, block: seq<nat>)
    requires HeaderSector(g) < |d| && n <= LOGSIZE <= |block|
  {
    Entries(HeaderOf(d, g)) == n && forall i | 0 <= i < n :: Entry(HeaderOf(d, g), i) == block[i]
  }

  /** The writes of install_trans: the i-th leaves the image after i+1 installations. */
  ghost predicate Installs(ws: seq<Image>, d: Image, g: Region)
    requires HeaderOk(d, g)
  {
    |ws| <= Entries(HeaderOf(d, g)) && forall i | 0 <= i < |ws| :: ws[i] == Install(d, g, i + 1)
  }

  /** Copying content block k to its home is one more installation, on the card and in the view. */
  lemma InstallOne(d: Image, v: Image, g: Region, n: nat, block: seq<nat>, k: nat)
    requires HeaderOk(d, g) && HeaderOk(v, g) && |d| == |v| && k < n <= LOGSIZE <= |block|
    requires HeaderListed(d, g, n, block) && HeaderListed(v, g, n, block)
    requires forall s | 0 <= s < |d| && InLog(g, s) :: v[s] == d[s]
    requires block[k] + MBR_BASE < |d|
    ensures
      var x := Install(v, g, k)[SlotSector(g, k)];
      && Install(d, g, k)[block[k] + MBR_BASE := x] == Install(d, g, k + 1)
      && Install(v, g, k)[block[k] + MBR_BASE := x] == Install(v, g, k + 1)
  {
    hide Word;
    assert InLog(g, SlotSector(g, k));
    InstallAt(d, g, k);
    InstallAt(v, g, k);
    assert Entry(HeaderOf(d, g), k) == block[k] == Entry(HeaderOf(v, g), k);
  }

  /** a agrees with d everywhere except in the content blocks of the log. */
  ghost predicate SlotsOnly(a: Image, d: Image, g: Region) {
    |a| == |d| && forall s | 0 <= s < |d| && (!InLog(g, s) || s == HeaderSector(g)) :: a[s] == d[s]
  }

  ghost predicate AllSlotsOnly(ws: seq<Image>, d: Image, g: Region) {
    forall i | 0 <= i < |ws| :: SlotsOnly(ws[i], d, g)
  }

  /** The first k listed blocks of the view are in the log. */
  ghost predicate Copied(sector: Image, view: Image, g: Region, block: seq<nat>, k: nat)
    requires g.start + g.size + MBR_BASE <= |sector| == |view| && k <= |block| && k < g.size
    requires forall i | 0 <= i < k :: block[i] + MBR_BASE < |view|
  {
    forall i | 0 <= i < k :: sector[SlotSector(g, i)] == view[block[i] + MBR_BASE]
  }

  /** Copying one more block into the log. */
  lemma CopyOne(sector: Image, view: Image, d: Image, v: Image, g: Region, block: seq<nat>, k: nat)
    requires g.start + g.size + MBR_BASE <= |sector| == |view| && k < |block| && k + 1 < g.size
    requires forall i | 0 <= i <= k :: block[i] + MBR_BASE < |view| && !InLog(g, block[i] + MBR_BASE)
    requires SlotsOnly(sector, d, g) && SlotsOnly(view, v, g) && Copied(sector, view, g, block, k)
    ensures
      var x := view[block[k] + MBR_BASE];
      var sector', view' := sector[SlotSector(g, k) := x], view[SlotSector(g, k) := x];
      SlotsOnly(sector', d, g) && SlotsOnly(view', v, g) && Copied(sector', view', g, block, k + 1)
  {
    hide Word;
    assert InLog(g, SlotSector(g, k)) && SlotSector(g, k) != HeaderSector(g);
  }

  /** Writing content blocks under an empty header commits nothing. */
  lemma BeforeHeader(a: Image, d: Image, g: Region)
    requires 0 < g.size && g.start + g.size + MBR_BASE <= |d| && Entries(HeaderOf(d, g)) == 0
    requires SlotsOnly(a, d, g)
    ensures Yields(a, d, g)
  {
    EmptyLogYields(a, d, g);
  }

  /** The in-memory list and the view that the log makes durable. */
  ghost predicate Lists(d: Image, g: Region, n: nat, block: seq<nat>, view: Image)
    requires 0 < g.size && g.start + g.size + MBR_BASE <= |d| == |view| && n <= LOGSIZE <= |block| && n < g.size
    requires forall i | 0 <= i < n :: block[i] + MBR_BASE < |d|
  {
    && Entries(HeaderOf(d, g)) == n
    && (forall i | 0 <= i < n :: Entry(HeaderOf(d, g), i) == block[i] && d[SlotSector(g, i)] == view[block[i] + MBR_BASE])
  }

  /** Once the header lists every block on which the view differs from the card, with its content
      in the log, recovery yields the view. */
  lemma AfterHeader(d: Image, g: Region, n: nat, block: seq<nat>, view: Image)
    requires 0 < g.size && g.start + g.size + MBR_BASE <= |d| == |view| && n <= LOGSIZE <= |block| && n < g.size
    requires forall i | 0 <= i < n :: block[i] + MBR_BASE < |d| && !InLog(g, block[i] + MBR_BASE)
    requires forall i, j | 0 <= i < j < n :: block[i] != block[j]
    requires Lists(d, g, n, block, view)
    requires forall s | 0 <= s < |d| && !InLog(g, s) && d[s] != view[s] :: exists i :: 0 <= i < n && block[i] + MBR_BASE == s
    ensures Yields(d, view, g)
  {
    hide Word, Install, Recovered, Cleared;
    assert HeaderOk(d, g);
    forall s | 0 <= s < |d| && !InLog(g, s) ensures Recovered(d, g)[s] == view[s] {
      RecoveredHome(d, g, s);
      if i :| 0 <= i < n && block[i] + MBR_BASE == s {
        assert s == Target(d, g, i);
      }
    }
  }

  /** Installing a committed log keeps its meaning, whatever part of it was done. */
  lemma WhileInstalling(ws: seq<Image>, d: Image, g: Region, view: Image)
    requires Yields(d, view, g) && Installs(ws, d, g)
    ensures AllYield(ws, view, g)
  {
    hide Word;
    forall i | 0 <= i < |ws| ensures Yields(ws[i], view, g) {
      InstallTwice(d, g, i + 1);
    }
  }

  /** A fully installed log may be erased: the card then holds the committed blocks. */
  lemma InstalledView(d1: Image, v1: Image, v: Image, d2: Image, v2: Image, g: Region)
    requires Yields(d1, v, g) && HeaderOk(v1, g) && |v1| == |d1| && HeaderOf(v1, g) == HeaderOf(d1, g)
    requires SameHome(v1, v, g) && forall s | 0 <= s < |d1| && InLog(g, s) :: v1[s] == d1[s]
    requires HeaderSector(g) < |d2| == |d1| && Entries(HeaderOf(d2, g)) == 0
    requires d2 == Install(d1, g, Entries(HeaderOf(d1, g)))[HeaderSector(g) := HeaderOf(d2, g)]
    requires v2 == Install(v1, g, Entries(HeaderOf(d1, g)))[HeaderSector(g) := HeaderOf(d2, g)]
    ensures Yields(d2, v, g) && SameHome(d2, v, g) && SameHome(v2, v, g)
  {
    hide Word;
    var i1, iv := Install(d1, g, Entries(HeaderOf(d1, g))), Install(v1, g, Entries(HeaderOf(d1, g)));
    forall s | 0 <= s < |d1| && !InLog(g, s) ensures i1[s] == v[s] == iv[s] {
      RecoveredSame(d1, v, g, s);
      InstalledSame(d1, v1, g, s);
    }
    HomeKeepsHeader(i1, v, g, HeaderOf(d2, g));
    HomeKeepsHeader(iv, v, g, HeaderOf(d2, g));
    EmptyLogYields(d2, v, g);
  }

  lemma RecoveredSame(d: Image, v: Image, g: Region, s: nat)
    requires Yields(d, v, g) && s < |d| && !InLog(g, s)
    ensures Recovered(d, g)[s] == v[s]
  {
  }

  lemma HomeKeepsHeader(a: Image, v: Image, g: Region, h: Block)
    requires SameHome(a, v, g) && HeaderSector(g) < |a| && 0 < g.size
    ensures SameHome(a[HeaderSector(g) := h], v, g)
  {
    assert InLog(g, HeaderSector(g));
  }

  lemma EmptyLogYields(d: Image, v: Image, g: Region)
    requires 0 < g.size && g.start + g.size + MBR_BASE <= |d| && Entries(HeaderOf(d, g)) == 0 && SameHome(d, v, g)
    ensures Yields(d, v, g)
  {
    assert InLog(g, HeaderSector(g));
  }

  /** Two images with the same log that agree after recovery outside it are installed alike. */
  lemma InstalledSame(d: Image, v: Image, g: Region, s: nat)
    requires HeaderOk(d, g) && HeaderOk(v, g) && |v| == |d| && HeaderOf(v, g) == HeaderOf(d, g)
    requires forall t | 0 <= t < |d| && InLog(g, t) :: v[t] == d[t]
    requires s < |d| && !InLog(g, s) && v[s] == Recovered(d, g)[s]
    ensures Install(d, g, Entries(HeaderOf(d, g)))[s] == v[s] == Install(v, g, Entries(HeaderOf(d, g)))[s]
  {
    hide Word;
    var n := Entries(HeaderOf(d, g));
    assert InLog(g, HeaderSector(g));
    InstallAt(d, g, n);
    InstallAt(v, g, n);
    if j :| 0 <= j < n && s == Target(d, g, j) {
      assert Target(v, g, j) == s && InLog(g, SlotSector(g, j));
    } else {
      assert forall j | 0 <= j < n :: Target(v, g, j) == Target(d, g, j);
    }
  }

  /** d and v are the card and the view before commit, d1 and v1 after write_log, d2 and v2 after
      write_head. */
  lemma HeaderCommits(d: Image, v: Image, d1: Image, v1: Image, d2: Image, v2: Image,
                      g: Region, n: nat, block: seq<nat>)
    requires 0 < g.size && g.start + g.size + MBR_BASE <= |d| == |v| && n <= LOGSIZE <= |block| && n < g.size
    requires forall i | 0 <= i < n :: block[i] + MBR_BASE < |d| && !InLog(g, block[i] + MBR_BASE) && block[i] < 0x1_0000_0000
    requires forall i, j | 0 <= i < j < n :: block[i] != block[j]
    requires forall s | 0 <= s < |d| && v[s] != d[s] :: exists i :: 0 <= i < n && block[i] + MBR_BASE == s
    requires SlotsOnly(d1, d, g) && SlotsOnly(v1, v, g) && Copied(d1, v1, g, block, n)
    requires forall s | 0 <= s < |d| && InLog(g, s) :: v1[s] == d1[s]
    requires d2 == d1[HeaderSector(g) := NewHeader(HeaderOf(d1, g), n, block)]
    requires v2 == v1[HeaderSector(g) := NewHeader(HeaderOf(d1, g), n, block)]
    ensures Yields(d2, v, g) && SameHome(v2, v, g)
    ensures HeaderOk(v2, g) && HeaderListed(d2, g, n, block) && HeaderListed(v2, g, n, block)
    ensures forall s | 0 <= s < |d| && InLog(g, s) :: v2[s] == d2[s]
  {
    hide Word;
    assert InLog(g, HeaderSector(g));
    forall i | 0 <= i < n ensures d2[SlotSector(g, i)] == v[block[i] + MBR_BASE] {
      assert d1[SlotSector(g, i)] == v1[block[i] + MBR_BASE];
    }
    AfterHeader(d2, g, n, block, v);
  }
}
