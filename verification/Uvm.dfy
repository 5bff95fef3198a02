/** Growing and shrinking an address space: uvm_alloc and uvm_dealloc of kern/vm.c. */
module Uvm {
  import opened Frames
  import opened Options
  import opened PageTables

  const BKPAGES: nat := 512                     // pages in a last-level table, BKSIZE / PGSIZE
  const UADDR_SZ: nat := 0x1000_0000

  function PageCeil(a: nat): nat { (a + PGSIZE - 1) / PGSIZE }

  /** The pages that uvm_dealloc passes over: the first page after a missing last-level table,
      unless the scan starts there. */
  ghost predicate Skipped(s: State, root: nat, from: nat, v: nat) {
    v > from && v % BKPAGES == 0 && TableOf(root, 3, v - 1) !in s.at
  }

  ghost predicate Gone(s: State, root: nat, from: nat, to: nat, v: nat) {
    from <= v < to && !Skipped(s, root, from, v)
  }

  ghost predicate GonePlace(s: State, root: nat, from: nat, to: nat, x: Place) {
    x.User? && x.root == root && Gone(s, root, from, to, x.vpn)
  }

  ghost predicate LosesMaps(s: State, s': State, root: nat, from: nat, to: nat) {
    SameRoots(s, s') && forall r: nat, v: nat | IsRoot(s, r) && v < VPNS ::
      Translate(s', r, v) == if r == root && Gone(s, root, from, to, v) then None else Translate(s, r, v)
  }

  /** Exactly the pages from..to of a root were unmapped, except the skipped ones, and their frames
      are free again. */
  ghost predicate Shrunk(s: State, s': State, root: nat, from: nat, to: nat) {
    && LosesMaps(s, s', root, from, to) && Kept(s, s')
    && (forall x :: x in s'.at <==> x in s.at && !GonePlace(s, root, from, to, x))
    && (forall x | x in s.at && GonePlace(s, root, from, to, x) :: s.at[x] in s'.role && s'.role[s.at[x]] == Free)
    && (forall f | f in s.role && !(s.role[f].At? && GonePlace(s, root, from, to, s.role[f].place)) ::
          f in s'.role && s'.role[f] == s.role[f])
    && (forall f | f in s.role && s.role[f] == Taken && f in s.mem :: f in s'.mem && s'.mem[f] == s.mem[f])
    && |s.free| <= |s'.free| && s.free == s'.free[|s'.free| - |s.free|..]
  }

  /** uvm_dealloc has handled the pages below address a. */
  ghost predicate Shrinking(s: State, s1: State, root: nat, from: nat, oldsz: nat, a: nat) {
    && a % PGSIZE == 0 && from <= a / PGSIZE && (a < oldsz ==> !Skipped(s, root, from, a / PGSIZE))
    && Conserved(s, s1) && IsRoot(s1, root)
    && Shrunk(s, s1, root, from, if a / PGSIZE < PageCeil(oldsz) then a / PGSIZE else PageCeil(oldsz))
  }

  /** One turn of the loop of uvm_dealloc. */
  method DeallocStep(vm: Vm, pgdir: nat, oldsz: nat, a: nat, ghost s: State, ghost from: nat) returns (ok: bool, next: nat)
    requires vm.Valid() && Ok(s) && IsRoot(s, pgdir) && a < oldsz <= VA_LIMIT && Shrinking(s, vm.S(), pgdir, from, oldsz, a)
    modifies vm
    ensures ok && vm.Valid() && Shrinking(s, vm.S(), pgdir, from, oldsz, next) && next > a
  {
    hide Ok, Shrunk, Skipped, Conserved, Kept, Present, Descriptor, Lookup;
    ok := true;
    ghost var v, s1 := a / PGSIZE, vm.S();
    BelowEnd(a, oldsz);
    var found, t, i := vm.PgdirWalk(pgdir, a, false);
    ShrunkTable(s, s1, pgdir, from, v, TableOf(pgdir, 3, v));
    if !found {
      SkipTable(s, s1, pgdir, from, v, PageCeil(oldsz));
      BlockUp(a);
      return true, (a + BKPAGES * PGSIZE - 1) / (BKPAGES * PGSIZE) * (BKPAGES * PGSIZE) + PGSIZE;
    }
    TableEntry(s1, TableOf(pgdir, 3, v), i);
    NextTable(pgdir, 3, v);
    if Present(vm.mem[t][i]) {
      ok := vm.FreeLeaf(pgdir, v, t, i);
      ShrunkMore(s, s1, vm.S(), pgdir, from, v);
      ConservedTwice(s, s1, vm.S());
    } else {
      ShrunkJump(s, s1, pgdir, from, v, v + 1);
    }
    AfterTable(s, pgdir, from, v);
    next := a + PGSIZE;
  }

  /** Unmaps the pages from newsz to oldsz and frees them. */
  method UvmDealloc(vm: Vm, pgdir: nat, oldsz: nat, newsz: nat) returns (ok: bool, r: nat)
    requires vm.Valid() && IsRoot(vm.S(), pgdir) && oldsz <= VA_LIMIT
    modifies vm
    ensures ok && vm.Valid() && Conserved(old(vm.S()), vm.S())
    ensures newsz >= oldsz ==> r == oldsz && vm.S() == old(vm.S())
    ensures newsz < oldsz ==> r == newsz && Shrunk(old(vm.S()), vm.S(), pgdir, PageCeil(newsz), PageCeil(oldsz))
  {
    hide Ok, Shrunk, Skipped, Conserved, IsRoot;
    ok := true;
    ConservedSame(vm.S());
    if newsz >= oldsz {
      return true, oldsz;
    }
    ghost var s, from := vm.S(), PageCeil(newsz);
    var a := RoundUp(newsz);
    ShrunkNone(s, pgdir, from);
    while a < oldsz
      invariant ok && vm.Valid() && Shrinking(s, vm.S(), pgdir, from, oldsz, a)
      decreases oldsz - a
    {
      ok, a := DeallocStep(vm, pgdir, oldsz, a, s, from);
    }
    r := newsz;
  }

  lemma BelowEnd(a: nat, oldsz: nat)
    requires a < oldsz <= VA_LIMIT && a % PGSIZE == 0
    ensures a / PGSIZE < PageCeil(oldsz) && a < VA_LIMIT && a / PGSIZE < VPNS
    ensures (a + PGSIZE) / PGSIZE == a / PGSIZE + 1 && (a + PGSIZE < oldsz <==> a / PGSIZE + 1 < PageCeil(oldsz))
  {
  }

  function BlockCeil(v: nat): nat { (v + BKPAGES - 1) / BKPAGES * BKPAGES }

  lemma BlockUp(a: nat)
    requires a % PGSIZE == 0
    ensures
      var b := (a + BKPAGES * PGSIZE - 1) / (BKPAGES * PGSIZE) * (BKPAGES * PGSIZE);
      b >= a && b % PGSIZE == 0 && b / PGSIZE == BlockCeil(a / PGSIZE) && (b + PGSIZE) / PGSIZE == BlockCeil(a / PGSIZE) + 1
  {
    var v := a / PGSIZE;
    var q, r := (v + BKPAGES - 1) / BKPAGES, (v + BKPAGES - 1) % BKPAGES;
    assert v + 511 == 512 * q + r;
    assert a == 4096 * v;
    assert a + 2097151 == 2097152 * q + (4096 * r + 4095);
    BlockQuotient(q, 4096 * r + 4095);
    PageQuotient(512 * q);
    PageQuotient(512 * q + 1);
  }

  lemma BlockQuotient(q: nat, r: nat)
    requires r < 2097152
    ensures (2097152 * q + r) / 2097152 == q
  {
  }

  lemma PageQuotient(v: nat)
    ensures 4096 * v / 4096 == v && 4096 * v % 4096 == 0
  {
  }

  lemma ShrunkNone(s: State, root: nat, from: nat)
    requires Ok(s)
    ensures Shrunk(s, s, root, from, from) && !Skipped(s, root, from, from)
  {
    NoneMore(s);
  }

  /** Tables stay. */
  lemma ShrunkTable(s: State, s1: State, root: nat, from: nat, to: nat, x: Place)
    requires Shrunk(s, s1, root, from, to) && x.Table?
    ensures x in s1.at <==> x in s.at
  {
    hide Translate;
  }

  /** Pages that are not mapped, or skipped, change nothing. */
  lemma ShrunkJump(s: State, s1: State, root: nat, from: nat, v: nat, w: nat)
    requires Ok(s1) && Shrunk(s, s1, root, from, v) && from <= v <= w && w <= VPNS && IsRoot(s, root) && IsRoot(s1, root)
    requires forall u: nat | v <= u < w :: Skipped(s, root, from, u) || User(root, u) !in s1.at
    ensures Shrunk(s, s1, root, from, w)
  {
    hide Translate, Skipped, Ok;
    forall u: nat | v <= u < w && !Skipped(s, root, from, u) ensures Translate(s1, root, u) == None && User(root, u) !in s.at {
      Translation(s1, root, u);
    }
    assert forall x :: GonePlace(s, root, from, w, x) && x in s.at ==> GonePlace(s, root, from, v, x);
  }

  lemma SkipTable(s: State, s1: State, root: nat, from: nat, v: nat, end: nat)
    requires Ok(s1) && Shrunk(s, s1, root, from, v) && from <= v < end <= VPNS && IsRoot(s, root) && IsRoot(s1, root)
    requires TableOf(root, 3, v) !in s1.at
    ensures Shrunk(s, s1, root, from, if BlockCeil(v) + 1 < end then BlockCeil(v) + 1 else end)
    ensures !Skipped(s, root, from, BlockCeil(v) + 1)
  {
    hide Translate, Ok, Shrunk;
    var w := if BlockCeil(v) + 1 < end then BlockCeil(v) + 1 else end;
    ShrunkTable(s, s1, root, from, v, TableOf(root, 3, v));
    forall u: nat | v <= u < w ensures Skipped(s, root, from, u) || User(root, u) !in s1.at {
      if u / BKPAGES == v / BKPAGES {
        SameTable(root, u, v);
        NoUserWithoutTable(s1, root, u);
      } else {
        assert u == BlockCeil(v);
        SameTable(root, u - 1, v);
      }
    }
    ShrunkJump(s, s1, root, from, v, w);
    NotSkipped(s, root, from, (v + BKPAGES - 1) / BKPAGES);
  }

  lemma NotSkipped(s: State, root: nat, from: nat, k: nat)
    ensures !Skipped(s, root, from, k * BKPAGES + 1)
  {
    assert (k * BKPAGES + 1) % BKPAGES == 1;
  }

  lemma SameTable(root: nat, u: nat, v: nat)
    requires u / BKPAGES == v / BKPAGES
    ensures TableOf(root, 3, u) == TableOf(root, 3, v)
  {
  }

  lemma AfterTable(s: State, root: nat, from: nat, v: nat)
    requires TableOf(root, 3, v) in s.at
    ensures !Skipped(s, root, from, v + 1)
  {
  }

  lemma ShrunkMore(s: State, s1: State, s2: State, root: nat, from: nat, v: nat)
    requires Ok(s) && Ok(s1) && Shrunk(s, s1, root, from, v) && Unmapped(s1, s2, root, v) && from <= v < VPNS && !Skipped(s, root, from, v)
    ensures Shrunk(s, s2, root, from, v + 1)
  {
    hide Translate, Skipped, Ok, LosesMaps;
    KeptLess(s, s1, s2);
    LosesMore(s, s1, s2, root, from, v);
    UserRole(s, root, v);
    KeptPlace(s, s1, User(root, v));
    assert s.free == s2.free[|s2.free| - |s.free|..];
  }

  lemma LosesMore(s: State, s1: State, s2: State, root: nat, from: nat, v: nat)
    requires LosesMaps(s, s1, root, from, v) && Remaps(s1, s2, root, v, None) && from <= v && !Skipped(s, root, from, v)
    ensures LosesMaps(s, s2, root, from, v + 1)
  {
    hide Translate, Skipped;
  }

  lemma KeptLess(s: State, s1: State, s2: State)
    requires Kept(s, s1) && Kept(s1, s2) && forall x | x in s2.at :: x in s1.at
    ensures Kept(s, s2)
  {
    forall x | x in s.at && x in s2.at && x.User? ensures SamePage(s, s2, x) {
      assert SamePage(s, s1, x) && SamePage(s1, s2, x);
    }
  }

  // Completeness of uvm_dealloc

  /** uvm_dealloc unmaps its whole range exactly when no page that it skips is mapped. */
  lemma DeallocComplete(s: State, s': State, root: nat, from: nat, to: nat)
    requires Ok(s) && Ok(s') && IsRoot(s, root) && Shrunk(s, s', root, from, to) && to <= VPNS
    ensures (forall v: nat | from <= v < to :: Translate(s', root, v) == None)
       <==> (forall v: nat | from <= v < to && Skipped(s, root, from, v) :: User(root, v) !in s.at)
  {
    hide Ok, Skipped, Lookup, Kept;
    forall v: nat | from <= v < to ensures Translate(s', root, v) == None <==> !Skipped(s, root, from, v) || User(root, v) !in s.at {
      Translation(s, root, v);
    }
  }

  /** An address space mapped from page 0 without gaps has no mapped page that is skipped. */
  lemma ContiguousIsComplete(s: State, root: nat, n: nat, from: nat, v: nat)
    requires Ok(s) && forall u: nat :: User(root, u) in s.at <==> u < n
    ensures Skipped(s, root, from, v) ==> User(root, v) !in s.at
  {
    if Skipped(s, root, from, v) {
      NoUserWithoutTable(s, root, v - 1);
    }
  }

  // Growing

  datatype Growth = Grown | NoPage | NoTable

  /** Pages from..to of a root were added: zeroed frames from the free list; everything else is kept. */
  ghost predicate Enlarged(s: State, s': State, root: nat, from: nat, to: nat) {
    && SameRoots(s, s') && Kept(s, s') && GainsMaps(s, s', root, from, to)
    && (forall x | x in s.at :: x in s'.at)
    && (forall x | x in s'.at && x.User? :: x in s.at || (x.root == root && from <= x.vpn < to))
    && (forall v: nat | from <= v < to :: FreshPage(s, s', root, v))
    && (forall f | f in s.role && s.role[f] == Taken :: f in s'.role && s'.role[f] == Taken)
    && (forall f | f in s.role && s.role[f] == Taken && f in s.mem :: f in s'.mem && s'.mem[f] == s.mem[f])
    && |s'.free| <= |s.free| && s'.free == s.free[|s.free| - |s'.free|..]
  }

  ghost predicate FreshPage(s: State, s': State, root: nat, v: nat) {
    && User(root, v) in s'.at && s'.at[User(root, v)] in s.free
    && s'.at[User(root, v)] in s'.mem && s'.mem[s'.at[User(root, v)]] == ZeroPage()
  }

  ghost predicate GainsMaps(s: State, s': State, root: nat, from: nat, to: nat) {
    forall r: nat, v: nat | IsRoot(s, r) && v < VPNS ::
      Translate(s', r, v) ==
      if r == root && from <= v < to && User(root, v) in s'.at then Some(Word(s'.at[User(root, v)], 0x447))
      else Translate(s, r, v)
  }

  /** One turn of the loop of uvm_alloc. */
  method GrowOne(vm: Vm, pgdir: nat, a: nat) returns (g: Growth, m: nat)
    requires vm.Valid() && IsRoot(vm.S(), pgdir) && a % PGSIZE == 0 && a + PGSIZE <= VA_LIMIT
    requires User(pgdir, a / PGSIZE) !in vm.at
    modifies vm
    ensures vm.Valid()
    ensures g.Grown? ==> Enlarged(old(vm.S()), vm.S(), pgdir, a / PGSIZE, a / PGSIZE + 1) && Conserved(old(vm.S()), vm.S())
    ensures g.NoPage? ==> vm.S() == old(vm.S()) && vm.free == []
    ensures g.NoTable? ==> MoreTables(old(vm.S()), vm.S()) && vm.free == [] && m in vm.role && vm.role[m] == Taken
    ensures g.NoTable? ==> ConservedBut(old(vm.S()), vm.S(), m) && m in old(vm.role) && old(vm.role)[m] == Free
    ensures g.NoTable? ==> TableOf(pgdir, 3, a / PGSIZE) !in vm.at
    ensures Uses(old(vm.S()), vm.S(), pgdir, a / PGSIZE, a / PGSIZE + 1, if g.NoTable? then -1 else 0)
  {
    hide Ok, Enlarged, MoreTables, Mapping, SameMaps, Kept, Uses;
    ghost var s := vm.S();
    UsesNone(s, pgdir, a / PGSIZE, a / PGSIZE + 1);
    m := vm.Kalloc();
    if m == 0 {
      return NoPage, 0;
    }
    TakeAndFill(s, ZeroPage());
    vm.mem := vm.mem[m := ZeroPage()];
    ghost var s1 := vm.S();
    assert vm.mem == s.mem[m := ZeroPage()];
    var r;
    ghost var done;
    OnePage(a, m);
    UsesTaken(s, s1, pgdir, a / PGSIZE, a / PGSIZE + 1);
    RootKept(s, s1, pgdir);
    r, done := vm.MapRegion(pgdir, a, PGSIZE, m, PTE_RW | PTE_USER);
    UsesTwice(s, s1, vm.S(), pgdir, a / PGSIZE, a / PGSIZE + 1, -1, done);
    if r.NoMemory? {
      MappedNothing(s1, vm.S(), pgdir, a / PGSIZE, m, 0x447);
      StillTaken(s1, vm.S(), m);
      MoreTwice(s, s1, vm.S());
      return NoTable, m;
    }
    EnlargedByOne(s, s1, vm.S(), pgdir, a / PGSIZE, m);
    PlacedNow(vm.S(), pgdir, a / PGSIZE);
    return Grown, m;
  }

  lemma UsesTaken(s: State, s1: State, root: nat, from: nat, to: nat)
    requires s1.at == s.at && s.free != [] && s1.free == s.free[1..]
    ensures Uses(s, s1, root, from, to, -1)
  {
  }

  lemma RootKept(s: State, s1: State, root: nat)
    requires MoreTables(s, s1) && IsRoot(s, root)
    ensures IsRoot(s1, root)
  {
  }

  lemma OnePage(a: nat, m: nat)
    requires a % PGSIZE == 0 && m % PGSIZE == 0
    ensures Pages(a, PGSIZE) == 1 && FrameOf(m, 0) == PteAddr(m) == m
  {
  }

  /** kalloc, and then new contents for the page. */
  lemma TakeAndFill(s: State, p: Page)
    requires Ok(s) && s.free != [] && |p| == ENTRIES
    ensures
      var f := s.free[0];
      var s1 := State(s.mem[f := p], s.at, s.role[f := Taken], s.free[1..]);
      Ok(s1) && MoreTables(s, s1) && f % PGSIZE == 0 && f != 0 && f in s.role && s.role[f] == Free
  {
    hide Ok, Translate, SameMaps, Kept;
    var f := s.free[0];
    TakeOk(s, JunkPage());
    TakeKeeps(s, JunkPage());
    var s1 := Take(s, JunkPage());
    FillOk(s1, f, p);
    FillKeeps(s1, f, p);
    var s2 := Fill(s1, f, p);
    assert s2.mem == s.mem[f := p];
    InMemory(s1, f);
    SameTwice(s, s1, s2);
    ChildOther(s, Table(0, 0, 0), 0);
    HeadZero(s);
  }

  lemma MappedNothing(s: State, s': State, root: nat, first: nat, f0: nat, flags: bv12)
    requires Mapping(s, s', root, first, 0, f0, flags)
    ensures MoreTables(s, s')
  {
    hide Translate;
  }

  lemma EnlargedByOne(s: State, s1: State, s2: State, root: nat, v: nat, m: nat)
    requires s.free != [] && m == s.free[0] && MoreTables(s, s1) && m in s1.role && s1.role[m] == Taken && m in s.role && s.role[m] == Free
    requires m in s1.mem && s1.mem[m] == ZeroPage()
    requires Mapping(s1, s2, root, v, 1, m, 0x447)
    requires Ok(s2)
    ensures Enlarged(s, s2, root, v, v + 1) && User(root, v) in s2.at && s2.at[User(root, v)] == m
  {
    hide Translate, Ok, Kept, SameMaps, MapsRegion, GainsMaps;
    KeptTwice(s, s1, s2);
    RegionGains(s, s1, s2, root, v, m);
    forall f | f in s.role && s.role[f] == Taken ensures f in s2.role && s2.role[f] == Taken {
      OtherStillTaken(s1, s2, root, v, m, f);
    }
    assert s2.free == s.free[|s.free| - |s2.free|..];
  }

  lemma RegionGains(s: State, s1: State, s2: State, root: nat, v: nat, m: nat)
    requires SameMaps(s, s1) && MapsRegion(s1, s2, root, v, 1, m, 0x447)
    requires User(root, v) in s2.at && s2.at[User(root, v)] == m
    ensures GainsMaps(s, s2, root, v, v + 1)
  {
    hide Translate;
  }

  lemma OtherStillTaken(s1: State, s2: State, root: nat, v: nat, m: nat, f: nat)
    requires f in s1.role && s1.role[f] == Taken && f != m && TakenOrMapped(s2, f, root, v, 1)
    requires User(root, v) in s2.at && s2.at[User(root, v)] == m
    ensures s2.role[f] == Taken
  {
  }

  /** As Conserved, but for one taken page. */
  ghost predicate ConservedBut(s: State, s': State, m: nat) {
    && s'.role.Keys == s.role.Keys
    && forall f | f in s'.role && s'.role[f] == Taken && f != m :: f in s.role && s.role[f] == Taken
  }

  lemma PlacedNow(s: State, root: nat, v: nat)
    requires Ok(s)
    ensures User(root, v) in s.at ==> s.at[User(root, v)] in s.role && s.role[s.at[User(root, v)]] != Taken
  {
    assert User(root, v) in s.at ==> PlaceOk(s, User(root, v));
  }

  lemma EnlargedNone(s: State, root: nat, from: nat, to: nat)
    requires Ok(s) && to <= from
    ensures Enlarged(s, s, root, from, to)
  {
    hide Translate;
    NoneMore(s);
  }

  lemma EnlargedJoin(s: State, s1: State, s2: State, root: nat, from: nat, v: nat)
    requires Enlarged(s, s1, root, from, v) && Enlarged(s1, s2, root, v, v + 1) && from <= v
    ensures Enlarged(s, s2, root, from, v + 1)
  {
    hide Translate, Kept, GainsMaps, SamePage;
    KeptTwice(s, s1, s2);
    forall u: nat | from <= u < v ensures User(root, u) in s1.at {
      assert FreshPage(s, s1, root, u);
    }
    GainsJoin(s, s1, s2, root, from, v);
    assert s2.free == s.free[|s.free| - |s2.free|..];
    forall u: nat | from <= u < v + 1 ensures FreshPage(s, s2, root, u) {
      if u < v {
        assert FreshPage(s, s1, root, u);
        KeptContents(s1, s2, User(root, u));
      } else {
        assert FreshPage(s1, s2, root, u);
      }
    }
  }

  lemma KeptContents(s: State, s': State, x: Place)
    requires Kept(s, s') && x in s.at && x in s'.at && x.User?
    ensures s'.at[x] == s.at[x] && s.at[x] in s.mem && s.at[x] in s'.mem && s'.mem[s.at[x]] == s.mem[s.at[x]]
  {
    assert SamePage(s, s', x);
  }

  lemma GainsJoin(s: State, s1: State, s2: State, root: nat, from: nat, v: nat)
    requires SameRoots(s, s1) && GainsMaps(s, s1, root, from, v) && GainsMaps(s1, s2, root, v, v + 1) && Kept(s1, s2) && from <= v
    requires forall x | x in s1.at :: x in s2.at
    requires forall x | x in s1.at && x.User? :: x in s.at || (x.root == root && from <= x.vpn < v)
    requires forall u: nat | from <= u < v :: User(root, u) in s1.at
    ensures GainsMaps(s, s2, root, from, v + 1)
  {
    hide Translate, Kept;
    forall u: nat | from <= u < v ensures s2.at[User(root, u)] == s1.at[User(root, u)] {
      KeptPlace(s1, s2, User(root, u));
    }
  }

  lemma EnlargedMore(s: State, s1: State, s2: State, root: nat, from: nat, v: nat)
    requires Enlarged(s, s1, root, from, v) && MoreTables(s1, s2)
    ensures Enlarged(s, s2, root, from, v)
  {
    hide Translate, Kept, GainsMaps, SamePage, SameMaps;
    KeptTwice(s, s1, s2);
    forall u: nat | from <= u < v ensures User(root, u) in s1.at {
      assert FreshPage(s, s1, root, u);
    }
    GainsThenSame(s, s1, s2, root, from, v);
    assert s2.free == s.free[|s.free| - |s2.free|..];
    forall u: nat | from <= u < v ensures FreshPage(s, s2, root, u) {
      assert FreshPage(s, s1, root, u);
      KeptContents(s1, s2, User(root, u));
    }
  }

  lemma GainsThenSame(s: State, s1: State, s2: State, root: nat, from: nat, v: nat)
    requires SameRoots(s, s1) && GainsMaps(s, s1, root, from, v) && SameMaps(s1, s2) && Kept(s1, s2)
    requires forall x | x in s1.at :: x in s2.at
    requires forall u: nat | from <= u < v :: User(root, u) in s1.at
    ensures GainsMaps(s, s2, root, from, v)
  {
    hide Translate, Kept;
    forall u: nat | from <= u < v ensures s2.at[User(root, u)] == s1.at[User(root, u)] {
      KeptPlace(s1, s2, User(root, u));
    }
  }

  /** Every translation is the one from before, user pages have their contents, and nothing stays
      taken: what a failed uvm_alloc leaves. */
  ghost predicate Restored(s: State, s': State) {
    && SameMaps(s, s') && Kept(s, s') && Conserved(s, s')
    && (forall x: Place | x.User? :: x in s'.at <==> x in s.at)
    && (forall f | f in s.role && s.role[f] == Taken :: f in s'.role && s'.role[f] == Taken)
  }

  /** Undoing growth by uvm_dealloc restores every translation. */
  lemma UndoGrowth(s: State, s1: State, s2: State, root: nat, from: nat, v: nat, to: nat)
    requires Ok(s) && Ok(s1) && Ok(s2) && IsRoot(s, root) && from <= v <= to <= VPNS
    requires Enlarged(s, s1, root, from, v) && Shrunk(s1, s2, root, from, to)
    requires forall u: nat | from <= u < to :: User(root, u) !in s.at
    ensures SameMaps(s, s2) && Kept(s, s2)
    ensures forall x: Place | x.User? :: x in s2.at <==> x in s.at
    ensures forall f | f in s.role && s.role[f] == Taken :: f in s2.role && s2.role[f] == Taken
  {
    hide Translate, Ok, Kept, SamePage, Skipped, LosesMaps, GainsMaps, SameMaps;
    forall u: nat | from <= u < v ensures User(root, u) in s1.at {
      assert FreshPage(s, s1, root, u);
    }
    forall u: nat | from <= u < to && Skipped(s1, root, from, u) ensures User(root, u) !in s1.at {
      SkippedUnmapped(s1, root, from, u, v);
    }
    forall x | x in s.at && x in s2.at && x.Table? ensures s2.at[x] == s.at[x] {
      KeptPlace(s, s1, x);
      KeptPlace(s1, s2, x);
    }
    forall x | x in s.at && x in s2.at && x.User? ensures SamePage(s, s2, x) {
      BothKept(s, s1, s2, x);
    }
    KeptParts(s, s2);
    UndoMaps(s, s1, s2, root, from, v, to);
  }

  lemma KeptParts(s: State, s': State)
    requires forall x | x in s.at && x in s'.at && x.Table? :: s'.at[x] == s.at[x]
    requires forall x | x in s.at && x in s'.at && x.User? :: SamePage(s, s', x)
    ensures Kept(s, s')
  {
  }

  lemma BothKept(s: State, s1: State, s2: State, x: Place)
    requires Kept(s, s1) && Kept(s1, s2) && x in s.at && x in s1.at && x in s2.at && x.User?
    ensures SamePage(s, s2, x)
  {
    assert SamePage(s, s1, x) && SamePage(s1, s2, x);
  }

  /** The pages added by uvm_alloc have no gap, so none of them is skipped. */
  lemma SkippedUnmapped(s: State, root: nat, from: nat, u: nat, v: nat)
    requires Ok(s) && Skipped(s, root, from, u)
    requires forall w: nat | from <= w < v :: User(root, w) in s.at
    requires u >= v ==> User(root, u) !in s.at
    ensures User(root, u) !in s.at
  {
    NoUserWithoutTable(s, root, u - 1);
  }

  lemma UndoMaps(s: State, s1: State, s2: State, root: nat, from: nat, v: nat, to: nat)
    requires Ok(s) && IsRoot(s, root) && from <= v <= to <= VPNS && SameRoots(s, s1)
    requires GainsMaps(s, s1, root, from, v) && LosesMaps(s1, s2, root, from, to)
    requires forall u: nat | from <= u < to :: User(root, u) !in s.at
    requires forall u: nat | from <= u < to && Skipped(s1, root, from, u) :: User(root, u) !in s1.at
    ensures SameMaps(s, s2)
  {
    hide Ok, Lookup, Skipped;
    forall r: nat, u: nat | IsRoot(s, r) && u < VPNS ensures Translate(s2, r, u) == Translate(s, r, u) {
      Translation(s, r, u);
    }
  }

  /** Conserved, or but for page m. */
  ghost predicate ConservedUpTo(s: State, s': State, but: bool, m: nat) {
    if but then ConservedBut(s, s', m) else Conserved(s, s')
  }

  lemma ConservedJoin(s: State, s1: State, s2: State, but: bool, m: nat)
    requires Conserved(s, s1) && if but then ConservedBut(s1, s2, m) else s2 == s1
    ensures ConservedUpTo(s, s2, but, m)
  {
  }

  lemma NotTakenBefore(s: State, s1: State, root: nat, from: nat, v: nat, m: nat)
    requires Enlarged(s, s1, root, from, v) && m in s1.role && s1.role[m] == Free
    ensures !(m in s.role && s.role[m] == Taken)
  {
    hide Translate;
  }

  lemma StillUnmapped(s: State, s1: State, root: nat, from: nat, v: nat)
    requires Enlarged(s, s1, root, from, v) && User(root, v) !in s.at && IsRoot(s, root)
    ensures User(root, v) !in s1.at && IsRoot(s1, root)
  {
    hide Translate;
  }

  lemma ShrunkRole(s: State, s': State, root: nat, from: nat, to: nat, m: nat)
    requires Shrunk(s, s', root, from, to) && m in s.role && s.role[m] == Taken
    ensures m in s'.role && s'.role[m] == Taken
  {
    hide Translate;
  }

  lemma FreedPage(s: State, s3: State, s4: State, m: nat, s2: State)
    requires Ok(s3) && m in s3.role && s3.role[m] == Taken && m in s3.mem && |s3.mem[m]| == ENTRIES && s4 == Give(s3, m)
    requires SameMaps(s, s3) && Kept(s, s3) && ConservedBut(s, s2, m) && Conserved(s2, s3)
    requires forall x: Place | x.User? :: x in s3.at <==> x in s.at
    requires forall f | f in s.role && s.role[f] == Taken :: f in s3.role && s3.role[f] == Taken
    requires !(m in s.role && s.role[m] == Taken)
    ensures Restored(s, s4)
  {
    hide Translate, Ok;
    GiveKeeps(s3, m);
    forall x | x in s.at && x in s4.at && x.User? ensures SamePage(s, s4, x) {
      assert SamePage(s, s3, x) && SamePage(s3, s4, x);
    }
  }

  /** The error path of uvm_alloc after v pages: uvm_dealloc, and kfree of a page not yet mapped. */
  method Fail(vm: Vm, pgdir: nat, oldsz: nat, newsz: nat, hasPage: bool, m: nat, ghost s: State, ghost v: nat)
    requires vm.Valid() && Ok(s) && IsRoot(s, pgdir) && IsRoot(vm.S(), pgdir) && oldsz <= newsz < UADDR_SZ
    requires PageCeil(oldsz) <= v < PageCeil(newsz)
    requires forall u: nat | PageCeil(oldsz) <= u < PageCeil(newsz) :: User(pgdir, u) !in s.at
    requires Enlarged(s, vm.S(), pgdir, PageCeil(oldsz), v) && ConservedUpTo(s, vm.S(), hasPage, m)
    requires hasPage ==> m in vm.role && vm.role[m] == Taken && !(m in s.role && s.role[m] == Taken)
    modifies vm
    ensures vm.Valid() && Restored(s, vm.S())
  {
    hide Ok, Enlarged, Conserved, Restored, Shrunk, ConservedBut, SameMaps, Kept;
    ghost var s2 := vm.S();
    SomeGrowth(oldsz, newsz, v);
    var ok, sz := UvmDealloc(vm, pgdir, newsz, oldsz);
    ghost var s3 := vm.S();
    UndoGrowth(s, s2, s3, pgdir, PageCeil(oldsz), v, PageCeil(newsz));
    if hasPage {
      ShrunkRole(s2, s3, pgdir, PageCeil(oldsz), PageCeil(newsz), m);
      ok := vm.Kfree(m);
      FreedPage(s, s3, vm.S(), m, s2);
    } else {
      ConservedTwice(s, s2, s3);
      RestoredIs(s, s3);
    }
  }

  lemma RestoredConserved(s: State, s': State)
    requires Restored(s, s')
    ensures Conserved(s, s')
  {
  }

  lemma AtEnd(a: nat, newsz: nat)
    requires a % PGSIZE == 0 && a >= newsz
    ensures a / PGSIZE >= PageCeil(newsz)
  {
  }

  lemma SomeGrowth(oldsz: nat, newsz: nat, v: nat)
    requires PageCeil(oldsz) <= v < PageCeil(newsz) && newsz < UADDR_SZ
    ensures oldsz < newsz && PageCeil(newsz) <= VPNS
  {
  }

  lemma RestoredIs(s: State, s': State)
    requires SameMaps(s, s') && Kept(s, s') && Conserved(s, s')
    requires forall x: Place | x.User? :: x in s'.at <==> x in s.at
    requires forall f | f in s.role && s.role[f] == Taken :: f in s'.role && s'.role[f] == Taken
    ensures Restored(s, s')
  {
  }

  /** There is a free page for every page from..to of a root and for every table that they lack. */
  ghost predicate EnoughPages(s: State, root: nat, from: nat, to: nat) {
    |Wanted(root, from, to) - s.at.Keys| <= |s.free|
  }

  /** What uvm_alloc runs out of when growing fails at page v: a page, or a table below a taken page. */
  lemma OutOfPages(s: State, s1: State, s2: State, root: nat, from: nat, v: nat, to: nat, g: Growth)
    requires Ok(s2) && Uses(s, s1, root, from, to, 0) && from <= v < to && !g.Grown? && s2.free == []
    requires Uses(s1, s2, root, v, v + 1, if g.NoTable? then -1 else 0)
    requires User(root, v) !in s2.at && (g.NoTable? ==> TableOf(root, 3, v) !in s2.at)
    ensures !EnoughPages(s, root, from, to)
  {
    hide Ok, Uses, Wanted, Prefix;
    var k := if g.NoTable? then -1 else 0;
    UsesWider(s1, s2, root, v, from, to, k);
    UsesTwice(s, s1, s2, root, from, to, 0, k);
    PathWanted(root, v, 4, from, to);
    PathWanted(root, v, 3, from, to);
    if g.NoTable? {
      TooFewForTwo(s, s2, root, from, to, User(root, v), TableOf(root, 3, v));
    } else {
      TooFew(s, s2, root, from, to, User(root, v));
    }
  }

  lemma AllGrown(s: State, s': State, root: nat, from: nat, to: nat)
    requires Ok(s') && Uses(s, s', root, from, to, 0) && Enlarged(s, s', root, from, to)
    ensures EnoughPages(s, root, from, to)
  {
    hide Ok, Uses, Wanted, Translate, Kept, GainsMaps;
    forall v: nat | from <= v < to ensures User(root, v) in s'.at {
      assert FreshPage(s, s', root, v);
    }
    AllUsed(s, s', root, from, to);
  }

  /** User code may read and write the new pages: PTE_USER, 0x040, is set, and PTE_RO, 0x080, is not. */
  lemma UserMayWrite(s: State, s': State, root: nat, from: nat, to: nat)
    requires Enlarged(s, s', root, from, to) && IsRoot(s, root) && to <= VPNS
    ensures forall v: nat | from <= v < to ::
              var e := Translate(s', root, v); e.Some? && e.value.flags & 0x0C0 == 0x040 && e.value.flags & 0x407 == 0x407
  {
    hide Translate, Kept;
    forall v: nat | from <= v < to ensures User(root, v) in s'.at && Translate(s', root, v) == Some(Word(s'.at[User(root, v)], 0x447)) {
      assert FreshPage(s, s', root, v);
    }
  }

  /** Grows an address space from oldsz to newsz with zeroed pages that user code may write.  It succeeds exactly when there are
      pages enough for what it adds; otherwise every translation is as before. */
  method UvmAlloc(vm: Vm, pgdir: nat, oldsz: nat, newsz: nat) returns (r: nat)
    requires vm.Valid() && IsRoot(vm.S(), pgdir)
    requires forall v: nat | PageCeil(oldsz) <= v < PageCeil(newsz) :: User(pgdir, v) !in vm.at
    modifies vm
    ensures vm.Valid() && Conserved(old(vm.S()), vm.S())
    ensures newsz >= UADDR_SZ ==> r == 0 && vm.S() == old(vm.S())
    ensures newsz < UADDR_SZ && newsz < oldsz ==> r == oldsz && vm.S() == old(vm.S())
    ensures newsz < UADDR_SZ && newsz >= oldsz ==>
              if EnoughPages(old(vm.S()), pgdir, PageCeil(oldsz), PageCeil(newsz))
              then r == newsz && Enlarged(old(vm.S()), vm.S(), pgdir, PageCeil(oldsz), PageCeil(newsz))
              else r == 0 && Restored(old(vm.S()), vm.S())
    ensures r == newsz < UADDR_SZ ==> forall v: nat | PageCeil(oldsz) <= v < PageCeil(newsz) ::
              var e := Translate(vm.S(), pgdir, v); e.Some? && e.value.flags & 0x0C0 == 0x040 && e.value.flags & 0x407 == 0x407
  {
    hide Ok, Enlarged, Conserved, Restored, Shrunk, ConservedBut, Uses, EnoughPages;
    if newsz >= UADDR_SZ {
      ConservedSame(vm.S());
      return 0;
    }
    if newsz < oldsz {
      ConservedSame(vm.S());
      return oldsz;
    }
    ghost var s, from, to := vm.S(), PageCeil(oldsz), PageCeil(newsz);
    ConservedSame(s);
    EnlargedNone(s, pgdir, from, from);
    UsesNone(s, pgdir, from, to);
    if to <= from {
      EnlargedNone(s, pgdir, from, to);
    }
    var a := RoundUp(oldsz);
    while a < newsz
      invariant vm.Valid() && a % PGSIZE == 0 && from <= a / PGSIZE
      invariant Enlarged(s, vm.S(), pgdir, from, a / PGSIZE) && Conserved(s, vm.S())
      invariant Uses(s, vm.S(), pgdir, from, to, 0)
      invariant if to <= from then vm.S() == s && a / PGSIZE == from else a / PGSIZE <= to
    {
      ghost var s1, v := vm.S(), a / PGSIZE;
      BelowEnd(a, newsz);
      StillUnmapped(s, s1, pgdir, from, v);
      var g, m := GrowOne(vm, pgdir, a);
      if !g.Grown? {
        ghost var s2 := vm.S();
        assert newsz >= oldsz;
        if g.NoTable? {
          EnlargedMore(s, s1, s2, pgdir, from, v);
          NotTakenBefore(s, s1, pgdir, from, v, m);
        }
        OutOfPages(s, s1, s2, pgdir, from, v, to, g);
        ConservedJoin(s, s1, s2, g.NoTable?, m);
        Fail(vm, pgdir, oldsz, newsz, g.NoTable?, m, s, v);
        assert Restored(s, vm.S());
        RestoredConserved(s, vm.S());
        return 0;
      }
      EnlargedJoin(s, s1, vm.S(), pgdir, from, v);
      ConservedTwice(s, s1, vm.S());
      UsesWider(s1, vm.S(), pgdir, v, from, to, 0);
      UsesTwice(s, s1, vm.S(), pgdir, from, to, 0, 0);
      a := a + PGSIZE;
    }
    AtEnd(a, newsz);
    AllGrown(s, vm.S(), pgdir, from, to);
    UserMayWrite(s, vm.S(), pgdir, from, to);
    return newsz;
  }
}
