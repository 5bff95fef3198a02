/** The page allocator of kern/kalloc.c and the page tables of kern/vm.c, over one physical
    memory.  Not ok is a panic of the C code. */
module PageTables {
  import opened Frames
  import opened Options

  /** PTX(level, va) of inc/mmu.h. */
  function PTX(level: nat, va: nat): (i: nat)
    requires level <= 3
    ensures i < ENTRIES
  {
    va / (Span(level) * PGSIZE) % ENTRIES
  }

  lemma PtxIsIndex(level: nat, va: nat)
    requires level <= 3
    ensures PTX(level, va) == Index(level, va / PGSIZE)
  {
    assert va / (Span(level) * PGSIZE) == va / PGSIZE / Span(level);
  }

  /** Nine bits of the address each, from bit 39, 30, 21 and 12 on. */
  lemma PtxBits(va: nat)
    ensures PTX(0, va) == va / 0x80_0000_0000 % 512 && PTX(1, va) == va / 0x4000_0000 % 512
    ensures PTX(2, va) == va / 0x20_0000 % 512 && PTX(3, va) == va / 0x1000 % 512
  {
  }

  function RoundDown(a: nat): nat { a / PGSIZE * PGSIZE }

  function RoundUp(a: nat): nat { (a + PGSIZE - 1) / PGSIZE * PGSIZE }

  const VA_LIMIT: nat := VPNS * PGSIZE

  function ZeroPage(): (p: Page)
    ensures |p| == ENTRIES && forall i | 0 <= i < ENTRIES :: p[i] == Word(0, 0)
  {
    seq(ENTRIES, _ => Word(0, 0))
  }

  /** The pattern that kalloc leaves in a page: every byte is 5. */
  function JunkPage(): (p: Page)
    ensures |p| == ENTRIES && forall i | 0 <= i < ENTRIES :: p[i] == Word(0x0505_0505_0505_0000, 0x505)
  {
    seq(ENTRIES, _ => Word(0x0505_0505_0505_0000, 0x505))
  }

  class Vm {
    var mem: map<nat, Page>
    var freeList: nat
    ghost var at: map<Place, nat>
    ghost var role: map<nat, Role>
    ghost var free: seq<nat>

    constructor (mem: map<nat, Page>, freeList: nat, ghost at: map<Place, nat>, ghost role: map<nat, Role>, ghost free: seq<nat>)
      ensures S() == State(mem, at, role, free) && this.freeList == freeList
    {
      this.mem, this.freeList, this.at, this.role, this.free := mem, freeList, at, role, free;
    }

    ghost function S(): State
      reads this
    {
      State(mem, at, role, free)
    }

    ghost predicate Valid()
      reads this
    {
      Ok(S()) && freeList == Head(free)
    }

    /** The first free page, filled with junk, or 0. */
    method Kalloc() returns (r: nat)
      requires Valid()
      modifies this
      ensures Valid()
      ensures old(free) == [] ==> r == 0 && S() == old(S())
      ensures old(free) != [] ==> r == old(free)[0] != 0 && S() == Take(old(S()), JunkPage())
    {
      hide Ok, SameMaps, Kept;
      r := freeList;
      if r != 0 {
        ghost var s := S();
        TakeOk(s, JunkPage());
        HeadWord(s, 0);
        freeList := mem[r][0].addr;
        mem := mem[r := JunkPage()];
        role := role[r := Taken];
        free := free[1..];
      } else {
        HeadZero(S());
      }
    }

    /** Puts a taken page back on the free list.  Not ok is the panic on a bad address. */
    method Kfree(v: nat) returns (ok: bool)
      requires Valid() && v in role && role[v] == Taken
      modifies this
      ensures ok && Valid() && v in old(mem) && |old(mem)[v]| == ENTRIES && S() == Give(old(S()), v)
    {
      hide Ok;
      GiveOk(S(), v);
      InMemory(S(), v);
      if v % PGSIZE != 0 || v >= PHYSTOP {
        return false;
      }
      mem := mem[v := mem[v][0 := Word(freeList, 0)]];
      freeList := v;
      role := role[v := Free];
      free := [v] + free;
      ok := true;
    }

    /** One level of pgdir_walk: from the table of va at a level to the one below it. */
    method WalkStep(root: nat, level: nat, t: nat, va: nat, alloc: bool) returns (found: bool, next: nat)
      requires Valid() && level < 3
      requires TableOf(root, level, va / PGSIZE) in at && at[TableOf(root, level, va / PGSIZE)] == t
      modifies this
      ensures Valid() && MoreTables(old(S()), S()) && Conserved(old(S()), S()) && OnlyOf(old(S()), S(), root)
      ensures found ==> TableOf(root, level + 1, va / PGSIZE) in at && at[TableOf(root, level + 1, va / PGSIZE)] == next
      ensures !alloc ==> S() == old(S())
      ensures !found ==> S() == old(S()) && (alloc ==> free == []) && TableOf(root, level + 1, va / PGSIZE) !in at
      ensures Uses(old(S()), S(), root, va / PGSIZE, va / PGSIZE + 1, 0)
    {
      hide Ok, MoreTables, Span, Present, Descriptor, Child, Uses;
      ghost var s, x := S(), TableOf(root, level, va / PGSIZE);
      PtxIsIndex(level, va);
      NextTable(root, level, va / PGSIZE);
      TableEntry(s, x, Index(level, va / PGSIZE));
      NoneMore(s);
      UsesNone(s, root, va / PGSIZE, va / PGSIZE + 1);
      var pte := mem[t][PTX(level, va)];
      if Present(pte) {
        return true, pte.addr;
      }
      if !alloc {
        return false, 0;
      }
      next := Kalloc();
      if next == 0 {
        return false, 0;
      }
      NewTable(s, x, Index(level, va / PGSIZE));
      ChildRoot(x, Index(level, va / PGSIZE));
      mem := mem[next := ZeroPage()];
      mem := mem[t := mem[t][PTX(level, va) := Word(next, PTE_P | PTE_TABLE)]];
      at := at[Child(x, Index(level, va / PGSIZE)) := next];
      role := role[next := At(Child(x, Index(level, va / PGSIZE)))];
      assert mem == s.mem[next := ZeroPage()][t := s.mem[t][Index(level, va / PGSIZE) := Word(next, PTE_P | PTE_TABLE)]];
      assert role == s.role[next := At(Child(x, Index(level, va / PGSIZE)))];
      UsesOne(s, S(), root, va / PGSIZE, level + 1, next, 0);
      found := true;
    }

    /** The entry for va in its last-level table: entry i of table t.  Missing tables are added if
        `alloc` says so; not found then means that memory is exhausted. */
    method PgdirWalk(pgdir: nat, va: nat, alloc: bool) returns (found: bool, t: nat, i: nat)
      requires Valid() && IsRoot(S(), pgdir) && va < VA_LIMIT
      modifies this
      ensures Valid() && MoreTables(old(S()), S()) && Conserved(old(S()), S()) && OnlyOf(old(S()), S(), pgdir)
      ensures found ==>
                TableOf(pgdir, 3, va / PGSIZE) in at && t == at[TableOf(pgdir, 3, va / PGSIZE)] && i == Index(3, va / PGSIZE)
      ensures !alloc ==> S() == old(S())
      ensures !found ==> (alloc ==> free == []) && TableOf(pgdir, 3, va / PGSIZE) !in at
      ensures Uses(old(S()), S(), pgdir, va / PGSIZE, va / PGSIZE + 1, 0)
    {
      hide Ok, MoreTables, Span, Index, OnlyOf, Uses, Conserved;
      OnlySame(S(), pgdir);
      ConservedSame(S());
      UsesNone(S(), pgdir, va / PGSIZE, va / PGSIZE + 1);
      RootTable(S(), pgdir, va / PGSIZE);
      NoneMore(S());
      t := pgdir;
      for level := 0 to 3
        invariant Valid() && MoreTables(old(S()), S()) && Conserved(old(S()), S()) && (!alloc ==> S() == old(S()))
        invariant OnlyOf(old(S()), S(), pgdir) && Uses(old(S()), S(), pgdir, va / PGSIZE, va / PGSIZE + 1, 0)
        invariant TableOf(pgdir, level, va / PGSIZE) in at && at[TableOf(pgdir, level, va / PGSIZE)] == t
      {
        ghost var s := S();
        found, t := WalkStep(pgdir, level, t, va, alloc);
        MoreTwice(old(S()), s, S());
        ConservedTwice(old(S()), s, S());
        OnlyTwice(old(S()), s, S(), pgdir);
        UsesTwice(old(S()), s, S(), pgdir, va / PGSIZE, va / PGSIZE + 1, 0, 0);
        if !found {
          NoTableBelow(S(), pgdir, level + 1, va / PGSIZE);
          return false, 0, 0;
        }
      }
      PtxIsIndex(3, va);
      return true, t, PTX(3, va);
    }

    /** kfree of the page that an entry maps, then clearing the entry.  Not ok is the panic on an
        entry that maps address 0. */
    method FreeLeaf(ghost root: nat, ghost vpn: nat, t: nat, i: nat) returns (ok: bool)
      requires Valid() && vpn < VPNS && User(root, vpn) in at
      requires TableOf(root, 3, vpn) in at && t == at[TableOf(root, 3, vpn)] && i == Index(3, vpn)
      modifies this
      ensures ok && Valid() && Unmapped(old(S()), S(), root, vpn) && Conserved(old(S()), S())
    {
      hide Ok, Unmapped, Index, Child, Present, Descriptor;
      ghost var s, x := S(), TableOf(root, 3, vpn);
      NextTable(root, 3, vpn);
      TableEntry(s, x, i);
      UnmapLeaf(s, root, vpn);
      var pa := mem[t][i].addr;
      InMemory(s, pa);
      if pa == 0 {
        return false;
      }
      mem := mem[pa := mem[pa][0 := Word(freeList, 0)]];
      freeList := pa;
      mem := mem[t := mem[t][i := Word(0, 0)]];
      at := Remove(at, User(root, vpn));
      role := role[pa := Free];
      free := [pa] + free;
      ok := true;
    }

    /** One page of map_region. */
    method MapOne(pgdir: nat, a: nat, pa: nat, perm: bv12) returns (r: MapResult)
      requires Valid() && IsRoot(S(), pgdir) && a < VA_LIMIT && PteAddr(pa) in role && role[PteAddr(pa)] == Taken
      modifies this
      ensures Valid() && Conserved(old(S()), S()) && OnlyOf(old(S()), S(), pgdir)
      ensures r.Mapped? ==> Mapping(old(S()), S(), pgdir, a / PGSIZE, 1, PteAddr(pa), perm | 0x407)
      ensures !r.Mapped? ==> MoreTables(old(S()), S())
      ensures r.NoMemory? ==> free == [] && TableOf(pgdir, 3, a / PGSIZE) !in at
      ensures r.Remap? <==> User(pgdir, a / PGSIZE) in old(at)
      ensures Uses(old(S()), S(), pgdir, a / PGSIZE, a / PGSIZE + 1, if r.Mapped? then 1 else 0)
    {
      hide LeafFlags, Ok, MoreTables, Mapping, Present, Descriptor, Span, Index, Child, Uses;
      ghost var s, vpn := S(), a / PGSIZE;
      NoUserWithoutTable(s, pgdir, vpn);
      var found, t, i := PgdirWalk(pgdir, a, true);
      ghost var s1, x := S(), TableOf(pgdir, 3, vpn);
      UsersKept(s, s1, User(pgdir, vpn));
      NoUserWithoutTable(s1, pgdir, vpn);
      if !found {
        return NoMemory;
      }
      TableEntry(s1, x, i);
      NextTable(pgdir, 3, vpn);
      if Present(mem[t][i]) {
        return Remap;
      }
      StillTaken(s, s1, PteAddr(pa));
      LeafPresent(PteAddr(pa), perm);
      MapLeaf(s, s1, pgdir, vpn, PteAddr(pa), LeafFlags(perm));
      at := at[User(pgdir, vpn) := PteAddr(pa)];
      role := role[PteAddr(pa) := At(User(pgdir, vpn))];
      mem := mem[t := mem[t][i := Word(PteAddr(pa), LeafFlags(perm))]];
      UsesOne(s1, S(), pgdir, vpn, 4, PteAddr(pa), 1);
      UsesTwice(s, s1, S(), pgdir, vpn, vpn + 1, 0, 1);
      return Mapped;
    }

    /** map_region has mapped `done` of the pages from first on; s is what it started from. */
    ghost predicate MappedTo(s: State, pgdir: nat, first: nat, pages: nat, done: nat, pa: nat, perm: bv12)
      reads this
    {
      && Valid() && IsRoot(s, pgdir) && done <= pages && Mapping(s, S(), pgdir, first, done, PteAddr(pa), perm | 0x407)
      && Conserved(s, S()) && OnlyOf(s, S(), pgdir) && Uses(s, S(), pgdir, first, first + pages, done)
      && forall v | first <= v < first + done :: User(pgdir, v) !in s.at
    }

    /** One turn of the loop of map_region. */
    method MapNext(pgdir: nat, a: nat, p: nat, perm: bv12, ghost s: State, ghost first: nat, ghost pages: nat, ghost done: nat, ghost pa: nat)
      returns (r: MapResult)
      requires MappedTo(s, pgdir, first, pages, done, pa, perm) && done < pages && a == (first + done) * PGSIZE < VA_LIMIT
      requires p == pa + done * PGSIZE && FrameOf(pa, done) in s.role && s.role[FrameOf(pa, done)] == Taken
      modifies this
      ensures MappedTo(s, pgdir, first, pages, if r.Mapped? then done + 1 else done, pa, perm)
      ensures r.NoMemory? ==> free == [] && TableOf(pgdir, 3, first + done) !in at
      ensures r.Remap? ==> User(pgdir, first + done) in s.at
    {
      hide Ok, Mapping, Translate, OnlyOf, Uses, Conserved;
      ghost var s1 := S();
      assert a / PGSIZE == first + done;
      NextFrame(pa, done);
      NextMapped(s, s1, pgdir, first, done, PteAddr(pa), perm | 0x407, FrameOf(pa, done));
      r := MapOne(pgdir, a, p, perm);
      OnlyTwice(s, s1, S(), pgdir);
      ConservedTwice(s, s1, S());
      UsesWider(s1, S(), pgdir, first + done, first, first + pages, if r.Mapped? then 1 else 0);
      UsesTwice(s, s1, S(), pgdir, first, first + pages, done, if r.Mapped? then 1 else 0);
      if r.Mapped? {
        MappingJoin(s, s1, S(), pgdir, first, done, PteAddr(pa), perm | 0x407);
      } else {
        MappingMore(s, s1, S(), pgdir, first, done, PteAddr(pa), perm | 0x407);
      }
    }

    /** map_region: `done` pages were mapped, all of them unless memory ran out or a page of the
        region was mapped before. */
    method MapRegion(pgdir: nat, va: nat, size: nat, pa: nat, perm: bv12) returns (r: MapResult, ghost done: nat)
      requires Valid() && IsRoot(S(), pgdir) && size > 0 && va + size <= VA_LIMIT
      requires forall k | 0 <= k < Pages(va, size) :: FrameOf(pa, k) in role && role[FrameOf(pa, k)] == Taken
      modifies this
      ensures Valid() && Mapping(old(S()), S(), pgdir, va / PGSIZE, done, PteAddr(pa), perm | 0x407)
      ensures forall v: nat | va / PGSIZE <= v < va / PGSIZE + done ::
                && Leaf(S(), pgdir, v, pa / 4096 * 4096 + (v - va / PGSIZE) * 4096)
                && Translate(S(), pgdir, v).value.flags & 0x0C0 == perm & 0x0C0
      ensures Conserved(old(S()), S()) && OnlyOf(old(S()), S(), pgdir)
      ensures done <= Pages(va, size) && (r.Mapped? <==> done == (va + size - 1) / 4096 - va / 4096 + 1)
      ensures r.NoMemory? ==> free == [] && TableOf(pgdir, 3, va / PGSIZE + done) !in at
      ensures r.Remap? ==> User(pgdir, va / PGSIZE + done) in old(at)
      ensures Uses(old(S()), S(), pgdir, va / PGSIZE, va / PGSIZE + Pages(va, size), done)
      ensures forall v | va / PGSIZE <= v < va / PGSIZE + done :: User(pgdir, v) !in old(at)
    {
      hide Ok, Mapping, Translate, OnlyOf, Uses, Conserved;
      ghost var s, first, pages := S(), va / PGSIZE, Pages(va, size);
      OnlySame(s, pgdir);
      ConservedSame(s);
      UsesNone(s, pgdir, first, first + pages);
      MappingNone(s, pgdir, first, PteAddr(pa), perm | 0x407);
      var a := RoundDown(va);
      var last := RoundDown(va + size - 1);
      var p := pa;
      done := 0;
      assert last == (first + pages - 1) * PGSIZE < VA_LIMIT;
      while true
        invariant MappedTo(s, pgdir, first, pages, done, pa, perm)
        invariant done < pages && a == (first + done) * PGSIZE && p == pa + done * PGSIZE && first + pages <= VPNS
        decreases pages - done
      {
        r := MapNext(pgdir, a, p, perm, s, first, pages, done, pa);
        if !r.Mapped? {
          break;
        }
        done := done + 1;
        if a == last {
          break;
        }
        a := a + PGSIZE;
        p := p + PGSIZE;
      }
      RegionBits(s, S(), pgdir, first, done, PteAddr(pa), perm);
    }
  }

  /** Number of pages that the bytes va..va+size touch. */
  function Pages(va: nat, size: nat): (n: nat)
    requires size > 0
    ensures n > 0
  {
    (va + size - 1) / PGSIZE - va / PGSIZE + 1
  }

  function FrameOf(pa: nat, k: nat): nat { PteAddr(pa) + k * PGSIZE }

  lemma NextFrame(pa: nat, k: nat)
    ensures PteAddr(pa + k * PGSIZE) == FrameOf(pa, k)
  {
    assert (pa + k * PGSIZE) / PGSIZE == pa / PGSIZE + k;
  }

  lemma MappingNone(s: State, root: nat, first: nat, f0: nat, flags: bv12)
    requires Ok(s)
    ensures Mapping(s, s, root, first, 0, f0, flags)
  {
    NoneMore(s);
    TakenInMemory(s);
  }

  /** The state of the next page and frame of a region. */
  lemma NextMapped(s: State, s1: State, root: nat, first: nat, n: nat, f0: nat, flags: bv12, f: nat)
    requires Mapping(s, s1, root, first, n, f0, flags) && f == f0 + n * PGSIZE && f in s.role && s.role[f] == Taken
    requires IsRoot(s, root)
    ensures f in s1.role && s1.role[f] == Taken && IsRoot(s1, root)
    ensures User(root, first + n) in s.at <==> User(root, first + n) in s1.at
  {
    hide Translate;
  }

  lemma MappingMore(s: State, s1: State, s2: State, root: nat, first: nat, n: nat, f0: nat, flags: bv12)
    requires Ok(s2) && Mapping(s, s1, root, first, n, f0, flags) && MoreTables(s1, s2)
    ensures Mapping(s, s2, root, first, n, f0, flags)
  {
    hide Translate, Ok, Kept, MapsRegion, SamePage, SameMaps;
    KeptTwice(s, s1, s2);
    RegionThenSame(s, s1, s2, root, first, n, f0, flags);
    forall v: nat | first <= v < first + n ensures s2.at[User(root, v)] == s1.at[User(root, v)] {
      KeptPlace(s1, s2, User(root, v));
    }
    forall f | f in s.role && s.role[f] == Taken
      ensures f in s2.mem && s2.mem[f] == s.mem[f] && TakenOrMapped(s2, f, root, first, n)
    {
      TakenAfter(s1, s2, f, root, first, n);
    }
    assert s2.free == s.free[|s.free| - |s2.free|..];
  }

  lemma RegionThenSame(s: State, s1: State, s2: State, root: nat, first: nat, n: nat, f0: nat, flags: bv12)
    requires SameRoots(s, s1) && MapsRegion(s, s1, root, first, n, f0, flags) && SameMaps(s1, s2)
    ensures SameRoots(s, s2) && MapsRegion(s, s2, root, first, n, f0, flags)
  {
    hide Translate;
  }

  lemma TakenAfter(s1: State, s2: State, f: nat, root: nat, first: nat, n: nat)
    requires Ok(s2) && Kept(s1, s2) && (forall x | x in s1.at :: x in s2.at) && TakenOrMapped(s1, f, root, first, n)
    requires s1.role[f] == Taken ==> TakenOrMapped(s2, f, root, first, n)
    ensures TakenOrMapped(s2, f, root, first, n)
    ensures s1.role[f].At? ==> f in s1.mem && f in s2.mem && s2.mem[f] == s1.mem[f]
  {
    if s1.role[f].At? {
      var x := s1.role[f].place;
      assert SamePage(s1, s2, x);
      assert PlaceOk(s2, x);
    }
  }

  lemma KeptTwice(s: State, s1: State, s2: State)
    requires Kept(s, s1) && Kept(s1, s2) && forall x | x in s.at :: x in s1.at
    ensures Kept(s, s2)
  {
    forall x | x in s.at && x in s2.at && x.User? ensures SamePage(s, s2, x) {
      assert SamePage(s, s1, x) && SamePage(s1, s2, x);
    }
  }

  lemma MappingJoin(s: State, s1: State, s2: State, root: nat, first: nat, n: nat, f0: nat, flags: bv12)
    requires Ok(s2) && Mapping(s, s1, root, first, n, f0, flags) && Mapping(s1, s2, root, first + n, 1, f0 + n * PGSIZE, flags)
    ensures Mapping(s, s2, root, first, n + 1, f0, flags)
  {
    hide Translate, Ok, Kept, MapsRegion, SamePage;
    KeptTwice(s, s1, s2);
    RegionsJoin(s, s1, s2, root, first, n, f0, flags);
    forall v: nat | first <= v < first + n + 1 ensures User(root, v) in s2.at && s2.at[User(root, v)] == f0 + (v - first) * PGSIZE {
      if v < first + n {
        KeptPlace(s1, s2, User(root, v));
      }
    }
    forall f | f in s.role && s.role[f] == Taken
      ensures f in s.mem && f in s2.mem && s2.mem[f] == s.mem[f] && TakenOrMapped(s2, f, root, first, n + 1)
    {
      TakenJoin(s1, s2, f, root, first, n);
    }
    assert s2.free == s.free[|s.free| - |s2.free|..];
  }

  lemma KeptPlace(s: State, s': State, x: Place)
    requires Kept(s, s') && x in s.at && x in s'.at
    ensures s'.at[x] == s.at[x]
  {
    assert x.User? ==> SamePage(s, s', x);
  }

  lemma RegionsJoin(s: State, s1: State, s2: State, root: nat, first: nat, n: nat, f0: nat, flags: bv12)
    requires SameRoots(s, s1) && MapsRegion(s, s1, root, first, n, f0, flags)
    requires MapsRegion(s1, s2, root, first + n, 1, f0 + n * PGSIZE, flags)
    ensures MapsRegion(s, s2, root, first, n + 1, f0, flags)
  {
    hide Translate;
  }

  lemma TakenJoin(s1: State, s2: State, f: nat, root: nat, first: nat, n: nat)
    requires Ok(s2) && Kept(s1, s2) && (forall x | x in s1.at :: x in s2.at) && TakenOrMapped(s1, f, root, first, n) && f in s1.mem
    requires s1.role[f] == Taken ==> f in s2.mem && s2.mem[f] == s1.mem[f] && TakenOrMapped(s2, f, root, first + n, 1)
    ensures f in s2.mem && s2.mem[f] == s1.mem[f] && TakenOrMapped(s2, f, root, first, n + 1)
  {
    if s1.role[f].At? {
      TakenAfter(s1, s2, f, root, first, n);
    }
  }

  /** One user page was unmapped and put on the free list; everything else is kept. */
  ghost predicate Unmapped(s: State, s': State, root: nat, vpn: nat) {
    && User(root, vpn) in s.at && Remaps(s, s', root, vpn, None) && Kept(s, s')
    && s'.at == Remove(s.at, User(root, vpn))
    && s'.free == [s.at[User(root, vpn)]] + s.free
    && s'.role == s.role[s.at[User(root, vpn)] := Free]
    && (forall f | f in s.role && s.role[f] == Taken && f in s.mem :: f in s'.mem && s'.mem[f] == s.mem[f])
  }

  lemma UnmapLeaf(s: State, root: nat, vpn: nat)
    requires Ok(s) && vpn < VPNS && User(root, vpn) in s.at
    ensures
      var x, i := TableOf(root, 3, vpn), Index(3, vpn);
      && x in s.at && s.at[x] in s.mem && |s.mem[s.at[x]]| == ENTRIES
      && var t, f := s.at[x], s.mem[s.at[x]][i].addr;
      && f == s.at[User(root, vpn)] && f in s.role && f in s.mem && |s.mem[f]| == ENTRIES && f != t
      && var p := s.mem[f][0 := Word(Head(s.free), 0)];
      && var s' := State(s.mem[f := p][t := s.mem[t][i := Word(0, 0)]], Remove(s.at, User(root, vpn)), s.role[f := Free], [f] + s.free);
      Ok(s') && Unmapped(s, s', root, vpn) && Conserved(s, s')
  {
    hide Ok, Present, Descriptor, Child, Translate, Prefix, Index, Remaps, Kept;
    var x, i := TableOf(root, 3, vpn), Index(3, vpn);
    NoUserWithoutTable(s, root, vpn);
    NextTable(root, 3, vpn);
    TableEntry(s, x, i);
    DetachOk(s, x, i);
    DetachKeeps(s, x, i);
    var s1, f, t := Detach(s, x, i), s.at[User(root, vpn)], s.at[x];
    UserNumber(root, vpn);
    UserRole(s, root, vpn);
    GiveOk(s1, f);
    GiveKeeps(s1, f);
    var s2 := Give(s1, f);
    var p := s.mem[f][0 := Word(Head(s.free), 0)];
    assert s1.mem[f] == s.mem[f];
    assert s2.mem == s.mem[f := p][t := s.mem[t][i := Word(0, 0)]];
    assert s2.role == s.role[f := Free];
    RemapThenSame(s, s1, s2, root, vpn, None);
  }

  lemma UserRole(s: State, root: nat, vpn: nat)
    requires Ok(s) && User(root, vpn) in s.at
    ensures
      var f := s.at[User(root, vpn)];
      && f in s.mem && f in s.role && s.role[f] == At(User(root, vpn)) && |s.mem[f]| == ENTRIES && f != 0
      && forall g | g in s.role && s.role[g] == Taken :: g != f
  {
    assert PlaceOk(s, User(root, vpn)) && FrameOk(s, s.at[User(root, vpn)]);
  }

  lemma RemapThenSame(s: State, s1: State, s2: State, root: nat, vpn: nat, w: Option<Word>)
    requires Remaps(s, s1, root, vpn, w) && Kept(s, s1) && SameMaps(s1, s2) && Kept(s1, s2) && s2.at == s1.at
    requires forall x | x in s1.at :: x in s.at
    ensures Remaps(s, s2, root, vpn, w) && Kept(s, s2)
  {
    hide Translate;
    forall x | x in s.at && x in s2.at && x.User? ensures SamePage(s, s2, x) {
      assert SamePage(s, s1, x) && SamePage(s1, s2, x);
    }
  }

  function PteAddr(a: nat): nat { a / PGSIZE * PGSIZE }

  /** The entry of a mapped page is a valid one for a page of normal memory, marked as accessed. */
  function LeafFlags(perm: bv12): (r: bv12)
    ensures r == perm | 0x407
  {
    perm | PTE_P | PTE_TABLE | PTE_AF | PTE_NORMAL
  }

  lemma LeafPresent(f: nat, perm: bv12)
    ensures Present(Word(f, LeafFlags(perm))) && Descriptor(Word(f, LeafFlags(perm)))
  {
  }

  /** Who may do what with the pages is what perm says: PTE_USER is 0x040 and PTE_RO is 0x080. */
  lemma RegionBits(s: State, s': State, root: nat, first: nat, n: nat, f0: nat, perm: bv12)
    requires Mapping(s, s', root, first, n, f0, perm | 0x407) && IsRoot(s, root) && first + n <= VPNS
    ensures forall v: nat | first <= v < first + n ::
              Leaf(s', root, v, f0 + (v - first) * PGSIZE) && Translate(s', root, v).value.flags & 0x0C0 == perm & 0x0C0
  {
    hide Translate, Kept;
    assert (perm | 0x407) & 0x0C0 == perm & 0x0C0;
    assert (perm | 0x407) & 0x407 == 0x407;
  }

  /** A valid entry of the last level for the frame at f, accessed. */
  ghost predicate Leaf(s: State, root: nat, v: nat, f: nat) {
    var e := Translate(s, root, v);
    e.Some? && e.value.addr == f && e.value.flags & 0x407 == 0x407
  }

  /** map_region's 0, -1 and panic. */
  datatype MapResult = Mapped | NoMemory | Remap

  /** Pages first..first+n of a root now map the frames from f0 on; everything else is kept. */
  ghost predicate Mapping(s: State, s': State, root: nat, first: nat, n: nat, f0: nat, flags: bv12) {
    && SameRoots(s, s') && Kept(s, s') && MapsRegion(s, s', root, first, n, f0, flags)
    && (forall x | x in s.at :: x in s'.at)
    && (forall x | x in s'.at && x.User? :: x in s.at || (x.root == root && first <= x.vpn < first + n))
    && (forall v: nat | first <= v < first + n :: User(root, v) in s'.at && s'.at[User(root, v)] == f0 + (v - first) * PGSIZE)
    && (forall f | f in s.role && s.role[f] == Taken ::
          f in s.mem && f in s'.mem && s'.mem[f] == s.mem[f] && TakenOrMapped(s', f, root, first, n))
    && |s'.free| <= |s.free| && s'.free == s.free[|s.free| - |s'.free|..]
  }

  ghost predicate MapsRegion(s: State, s': State, root: nat, first: nat, n: nat, f0: nat, flags: bv12) {
    forall r: nat, v: nat | IsRoot(s, r) && v < VPNS ::
      Translate(s', r, v) ==
      if r == root && first <= v < first + n then Some(Word(f0 + (v - first) * PGSIZE, flags)) else Translate(s, r, v)
  }

  ghost predicate TakenOrMapped(s: State, f: nat, root: nat, first: nat, n: nat) {
    f in s.role && match s.role[f]
                   case Free => false
                   case Taken => true
                   case At(x) => x.User? && x.root == root && first <= x.vpn < first + n && x in s.at && s.at[x] == f
  }

  lemma StillTaken(s: State, s1: State, f: nat)
    requires MoreTables(s, s1) && f in s.role && s.role[f] == Taken
    ensures f in s1.role && s1.role[f] == Taken
  {
  }

  lemma UsersKept(s: State, s1: State, x: Place)
    requires MoreTables(s, s1) && x.User?
    ensures x in s.at <==> x in s1.at
  {
  }

  lemma NoUserWithoutTable(s: State, root: nat, vpn: nat)
    requires Ok(s)
    ensures User(root, vpn) in s.at ==> TableOf(root, 3, vpn) in s.at
  {
    assert User(root, vpn) in s.at ==> PlaceOk(s, User(root, vpn));
  }

  lemma MapLeaf(s: State, s1: State, root: nat, vpn: nat, f: nat, flags: bv12)
    requires Ok(s) && Ok(s1) && MoreTables(s, s1) && vpn < VPNS && TableOf(root, 3, vpn) in s1.at && User(root, vpn) !in s1.at
    requires f in s1.role && s1.role[f] == Taken && Present(Word(f, flags)) && Descriptor(Word(f, flags))
    ensures
      var x, i := TableOf(root, 3, vpn), Index(3, vpn);
      && s1.at[x] in s1.mem && i < |s1.mem[s1.at[x]]|
      && var s2 := State(s1.mem[s1.at[x] := s1.mem[s1.at[x]][i := Word(f, flags)]], s1.at[User(root, vpn) := f],
                         s1.role[f := At(User(root, vpn))], s1.free);
      Ok(s2) && Mapping(s, s2, root, vpn, 1, f, flags) && Conserved(s1, s2)
  {
    hide Ok, Present, Descriptor, Span, Child, Translate, Prefix;
    var x, i, w := TableOf(root, 3, vpn), Index(3, vpn), Word(f, flags);
    NextTable(root, 3, vpn);
    InMemory(s1, f);
    TableEntry(s1, x, i);
    AttachOk(s1, x, i, f, w);
    AttachKeeps(s1, x, i, f, w);
    var s2 := Attach(s1, x, i, f, w);
    UserNumber(root, vpn);
    SameThenRemap(s, s1, s2, root, vpn, Some(w));
    TakenInMemory(s);
  }

  lemma UserNumber(root: nat, vpn: nat)
    ensures TableOf(root, 3, vpn).root == root && ENTRIES * TableOf(root, 3, vpn).prefix + Index(3, vpn) == vpn
  {
    assert vpn == ENTRIES * (vpn / ENTRIES) + vpn % ENTRIES;
  }

  lemma TakenInMemory(s: State)
    requires Ok(s)
    ensures forall f | f in s.role && s.role[f] == Taken :: f in s.mem
  {
    forall f | f in s.role ensures f in s.mem {
      assert RoleOk(s, f);
    }
  }

  lemma SameThenRemap(s: State, s1: State, s2: State, root: nat, vpn: nat, w: Option<Word>)
    requires MoreTables(s, s1) && Remaps(s1, s2, root, vpn, w) && Kept(s1, s2)
    ensures Remaps(s, s2, root, vpn, w) && Kept(s, s2)
  {
    hide Translate;
    forall x | x in s.at && x in s2.at && x.User? ensures SamePage(s, s2, x) {
      assert SamePage(s, s1, x) && SamePage(s1, s2, x);
    }
  }

  /** No page appeared, vanished, or was taken without being placed. */
  ghost predicate Conserved(s: State, s': State) {
    && s'.role.Keys == s.role.Keys
    && forall f | f in s'.role && s'.role[f] == Taken :: f in s.role && s.role[f] == Taken
  }

  lemma ConservedSame(s: State)
    ensures Conserved(s, s)
  {
  }

  lemma ConservedTwice(s: State, s1: State, s2: State)
    requires Conserved(s, s1) && Conserved(s1, s2)
    ensures Conserved(s, s2)
  {
  }

  /** Every place that came into use belongs to one root. */
  ghost predicate OnlyOf(s: State, s': State, root: nat) {
    forall x | x in s'.at :: x in s.at || x.root == root
  }

  lemma OnlySame(s: State, root: nat)
    ensures OnlyOf(s, s, root)
  {
  }

  lemma OnlyTwice(s: State, s1: State, s2: State, root: nat)
    requires OnlyOf(s, s1, root) && OnlyOf(s1, s2, root)
    ensures OnlyOf(s, s2, root)
  {
  }

  lemma ChildRoot(x: Place, i: nat)
    requires x.Table?
    ensures Child(x, i).root == x.root
  {
  }

  // How many pages it takes

  /** The places on the way to a page number below the root: tables of levels 1 to 3 and the page. */
  function OnPath(root: nat, vpn: nat, level: nat): Place
    requires level <= 4
  {
    if level == 4 then User(root, vpn) else TableOf(root, level, vpn)
  }

  /** The places that pages from..to of a root take. */
  ghost function Wanted(root: nat, from: nat, to: nat): set<Place> {
    set v: nat, level: nat | from <= v < to && 1 <= level <= 4 :: OnPath(root, v, level)
  }

  /** Of the wanted places some came into use, each with a page off the free list or with one of n
      pages that were taken before. */
  ghost predicate Uses(s: State, s': State, root: nat, from: nat, to: nat, n: int) {
    && s.at.Keys <= s'.at.Keys <= s.at.Keys + Wanted(root, from, to)
    && |s'.at.Keys| + |s'.free| == |s.at.Keys| + |s.free| + n
  }

  lemma UsesNone(s: State, root: nat, from: nat, to: nat)
    ensures Uses(s, s, root, from, to, 0)
  {
  }

  lemma UsesTwice(s: State, s1: State, s2: State, root: nat, from: nat, to: nat, n: int, m: int)
    requires Uses(s, s1, root, from, to, n) && Uses(s1, s2, root, from, to, m)
    ensures Uses(s, s2, root, from, to, n + m)
  {
  }

  lemma UsesWider(s: State, s': State, root: nat, v: nat, from: nat, to: nat, n: int)
    requires Uses(s, s', root, v, v + 1, n) && from <= v < to
    ensures Uses(s, s', root, from, to, n)
  {
    forall x | x in Wanted(root, v, v + 1) ensures x in Wanted(root, from, to) {
      var u: nat, level: nat :| v <= u < v + 1 && 1 <= level <= 4 && x == OnPath(root, u, level);
    }
  }

  lemma UsesOne(s: State, s': State, root: nat, v: nat, level: nat, f: nat, n: nat)
    requires 1 <= level <= 4 && OnPath(root, v, level) !in s.at && s'.at == s.at[OnPath(root, v, level) := f]
    requires |s.free| + n == |s'.free| + 1
    ensures Uses(s, s', root, v, v + 1, n)
  {
    hide OnPath, Wanted;
    PathWanted(root, v, level, v, v + 1);
    OneMoreKey(s.at, OnPath(root, v, level), f);
  }

  lemma OneMoreKey<K, V>(m: map<K, V>, k: K, v: V)
    requires k !in m
    ensures m[k := v].Keys == m.Keys + {k} && |m[k := v].Keys| == |m.Keys| + 1
  {
  }

  lemma PathWanted(root: nat, v: nat, level: nat, from: nat, to: nat)
    requires from <= v < to && 1 <= level <= 4
    ensures OnPath(root, v, level) in Wanted(root, from, to)
  {
    hide OnPath;
  }

  /** A mapped page has the tables on its path. */
  lemma PathInUse(s: State, root: nat, v: nat, level: nat)
    requires Ok(s) && User(root, v) in s.at && 1 <= level <= 4
    ensures OnPath(root, v, level) in s.at
  {
    if level < 4 && TableOf(root, level, v) !in s.at {
      NoUserBelow(s, root, level, v);
    }
  }

  lemma WantedInUse(s: State, root: nat, from: nat, to: nat)
    requires Ok(s) && forall v: nat | from <= v < to :: User(root, v) in s.at
    ensures Wanted(root, from, to) <= s.at.Keys
  {
    hide Ok, OnPath;
    forall x | x in Wanted(root, from, to) ensures x in s.at.Keys {
      var v: nat, level: nat :| from <= v < to && 1 <= level <= 4 && x == OnPath(root, v, level);
      PathInUse(s, root, v, level);
    }
  }

  /** With pages from..to in use, the wanted places that were not in use before are as many as pages
      were used. */
  lemma AllUsed(s: State, s': State, root: nat, from: nat, to: nat)
    requires Ok(s') && Uses(s, s', root, from, to, 0) && forall v: nat | from <= v < to :: User(root, v) in s'.at
    ensures |Wanted(root, from, to) - s.at.Keys| == |s.free| - |s'.free|
  {
    hide Ok, Wanted;
    WantedInUse(s', root, from, to);
    Difference(s.at.Keys, s'.at.Keys);
    assert s'.at.Keys - s.at.Keys == Wanted(root, from, to) - s.at.Keys;
  }

  /** With the free list used up and a wanted place not in use, there were too few pages; and also if
      one page was taken, but two places are missing. */
  lemma TooFew(s: State, s': State, root: nat, from: nat, to: nat, x: Place)
    requires Uses(s, s', root, from, to, 0) && s'.free == [] && x in Wanted(root, from, to) && x !in s'.at
    ensures |Wanted(root, from, to) - s.at.Keys| > |s.free|
  {
    hide Wanted;
    MoreWanted(s.at.Keys, s'.at.Keys, Wanted(root, from, to), {x});
  }

  lemma TooFewForTwo(s: State, s': State, root: nat, from: nat, to: nat, x: Place, y: Place)
    requires Uses(s, s', root, from, to, -1) && s'.free == [] && x != y
    requires x in Wanted(root, from, to) && x !in s'.at && y in Wanted(root, from, to) && y !in s'.at
    ensures |Wanted(root, from, to) - s.at.Keys| > |s.free|
  {
    hide Wanted;
    MoreWanted(s.at.Keys, s'.at.Keys, Wanted(root, from, to), {x, y});
  }

  lemma MoreWanted<T>(was: set<T>, now: set<T>, wanted: set<T>, missing: set<T>)
    requires was <= now <= was + wanted && missing <= wanted - now
    ensures |wanted - was| >= |now| - |was| + |missing|
  {
    Difference(was, now);
    Difference((now - was) + missing, wanted - was);
  }

  lemma Difference<T>(a: set<T>, b: set<T>)
    requires a <= b
    ensures |b - a| == |b| - |a|
  {
    assert b == a + (b - a);
  }

  /** Only page tables were added, from the front of the free list: every translation and every
      page in use is kept. */
  ghost predicate MoreTables(s: State, s': State) {
    && SameMaps(s, s') && Kept(s, s')
    && (forall x | x in s.at :: x in s'.at)
    && (forall x | x in s'.at && x.User? :: x in s.at)
    && (forall f | f in s.role && s.role[f] == Taken :: f in s'.role && s'.role[f] == Taken)
    && (forall f | f in s.role && s.role[f] == Taken && f in s.mem :: f in s'.mem && s'.mem[f] == s.mem[f])
    && |s'.free| <= |s.free| && s'.free == s.free[|s.free| - |s'.free|..]
  }

  lemma NoneMore(s: State)
    requires Ok(s)
    ensures MoreTables(s, s)
  {
    forall x | x in s.at && x.User? ensures SamePage(s, s, x) {
      assert PlaceOk(s, x);
    }
  }

  lemma MoreTwice(s: State, s1: State, s2: State)
    requires MoreTables(s, s1) && MoreTables(s1, s2)
    ensures MoreTables(s, s2)
  {
    hide Translate;
    SameTwice(s, s1, s2);
    assert s2.free == s.free[|s.free| - |s2.free|..];
  }

  lemma TableEntry(s: State, x: Place, i: nat)
    requires Ok(s) && x in s.at && x.Table? && i < ENTRIES
    ensures s.at[x] in s.mem && |s.mem[s.at[x]]| == ENTRIES && x.level <= 3
    ensures s.at[x] in s.role && s.role[s.at[x]] == At(x)
    ensures Present(s.mem[s.at[x]][i]) <==> Child(x, i) in s.at
    ensures if Child(x, i) in s.at then s.mem[s.at[x]][i].addr == s.at[Child(x, i)] else Clear(s.mem[s.at[x]][i])
  {
    hide Present, Descriptor, Clear;
    assert PlaceOk(s, x) && EntryOk(s, x, i) && FrameOk(s, s.at[x]);
  }

  lemma RootTable(s: State, root: nat, vpn: nat)
    requires Ok(s) && IsRoot(s, root) && vpn < VPNS
    ensures TableOf(root, 0, vpn) == Table(root, 0, 0) && s.at[Table(root, 0, 0)] == root
  {
    assert PlaceOk(s, Table(root, 0, 0));
  }

  lemma {:induction false} NoTableBelow(s: State, root: nat, level: nat, vpn: nat)
    requires Ok(s) && 0 < level <= 3 && TableOf(root, level, vpn) !in s.at
    ensures TableOf(root, 3, vpn) !in s.at
    decreases 3 - level
  {
    if level < 3 {
      ParentPrefix(level, vpn);
      assert TableOf(root, level + 1, vpn) in s.at ==> PlaceOk(s, TableOf(root, level + 1, vpn));
      NoTableBelow(s, root, level + 1, vpn);
    }
  }

  lemma TableWord(f: nat)
    ensures Present(Word(f, PTE_P | PTE_TABLE)) && Descriptor(Word(f, PTE_P | PTE_TABLE)) && !Present(Word(0, 0)) && !Descriptor(Word(0, 0)) && Clear(Word(0, 0))
  {
  }

  lemma ChildOther(s: State, x: Place, i: nat)
    requires Ok(s) && s.free != []
    ensures forall g | g in s.role && s.role[g] == Taken :: g != s.free[0] && g in s.mem
    ensures s.free[0] in s.mem && s.free[0] in s.role
  {
    assert FreeOk(s, 0);
    forall g | g in s.role && s.role[g] == Taken ensures g != s.free[0] && g in s.mem {
      assert RoleOk(s, g);
    }
  }

  /** A page from the free list, cleared and put below an entry as a table. */
  lemma NewTable(s: State, x: Place, i: nat)
    requires Ok(s) && s.free != [] && x in s.at && x.Table? && x.level < 3 && i < ENTRIES && Child(x, i) !in s.at
    ensures s.at[x] in s.mem && |s.mem[s.at[x]]| == ENTRIES && s.at[x] != s.free[0]
    ensures
      var f := s.free[0];
      var s' := State(s.mem[f := ZeroPage()][s.at[x] := s.mem[s.at[x]][i := Word(f, PTE_P | PTE_TABLE)]],
                      s.at[Child(x, i) := f], s.role[f := At(Child(x, i))], s.free[1..]);
      Ok(s') && MoreTables(s, s') && Conserved(s, s')
  {
    hide Ok, Present, Descriptor, Clear, Child, Translate, SameMaps, Kept;
    var f := s.free[0];
    TableWord(f);
    ChildKind(x, i);
    ChildOther(s, x, i);
    TakeOk(s, JunkPage());
    var s1 := Take(s, JunkPage());
    TakeKeeps(s, JunkPage());
    FillOk(s1, f, ZeroPage());
    FillKeeps(s1, f, ZeroPage());
    var s2 := Fill(s1, f, ZeroPage());
    var w := Word(f, PTE_P | PTE_TABLE);
    TableEntry(s, x, i);
    TableEntry(s2, x, i);
    AttachOk(s2, x, i, f, w);
    AttachKeeps(s2, x, i, f, w);
    var s3 := Attach(s2, x, i, f, w);
    var mem' := s.mem[f := ZeroPage()][s.at[x] := s.mem[s.at[x]][i := w]];
    assert s3.mem == mem' && s3.role == s.role[f := At(Child(x, i))];
    SameTwice(s, s1, s2);
    SameTwice(s, s2, s3);
  }

  lemma SameTwice(s: State, s1: State, s2: State)
    requires SameMaps(s, s1) && SameMaps(s1, s2) && Kept(s, s1) && Kept(s1, s2)
    requires forall x | x in s.at :: x in s1.at
    ensures SameMaps(s, s2) && Kept(s, s2)
  {
    hide Translate;
    forall x | x in s.at && x in s2.at && x.User? ensures SamePage(s, s2, x) {
      assert SamePage(s, s1, x) && SamePage(s1, s2, x);
    }
  }

  lemma HeadWord(s: State, i: nat)
    requires Ok(s) && i < |s.free|
    ensures s.free[i] in s.mem && |s.mem[s.free[i]]| == ENTRIES && s.free[i] != 0
    ensures s.mem[s.free[i]][0].addr == Head(s.free[i + 1..])
  {
    assert FreeOk(s, i) && FrameOk(s, s.free[i]);
  }

  lemma HeadZero(s: State)
    requires Ok(s)
    ensures Head(s.free) == 0 <==> s.free == []
  {
    if s.free != [] {
      HeadWord(s, 0);
    }
  }

  lemma InMemory(s: State, f: nat)
    requires Ok(s) && f in s.role
    ensures f in s.mem && |s.mem[f]| == ENTRIES && f % PGSIZE == 0 && 0 < f < PHYSTOP
  {
    assert RoleOk(s, f) && FrameOk(s, f);
  }
}
