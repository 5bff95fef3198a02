/** Copying an address space for fork: pgdir_init and copyuvm of kern/vm.c. */
module AddressCopy {
  import opened Frames
  import opened Options
  import opened PageTables
  import opened Uvm

  // A new root

  /** A taken page becomes the root of an address space with nothing in it. */
  function Rooted(s: State, f: nat): State {
    State(s.mem, s.at[Table(f, 0, 0) := f], s.role[f := At(Table(f, 0, 0))], s.free)
  }

  /** A page that is not a root has nothing below it. */
  lemma {:induction false} NoTree(s: State, x: Place)
    requires Ok(s) && Table(x.root, 0, 0) !in s.at
    ensures x !in s.at
    decreases if x.User? then 4 else x.level
  {
    if x in s.at {
      assert PlaceOk(s, x);
      if x.User? {
        NoTree(s, Table(x.root, 3, x.vpn / ENTRIES));
      } else if x.level > 0 {
        NoTree(s, Table(x.root, x.level - 1, x.prefix / ENTRIES));
      }
    }
  }

  lemma TakenIsNoRoot(s: State, f: nat)
    requires Ok(s) && f in s.role && s.role[f] == Taken
    ensures Table(f, 0, 0) !in s.at
  {
    assert Table(f, 0, 0) in s.at ==> PlaceOk(s, Table(f, 0, 0));
  }

  lemma RootUnused(s: State, f: nat)
    requires Ok(s) && f in s.role && s.role[f] == Taken
    ensures !IsRoot(s, f) && forall x | x in s.at :: x.root != f && s.at[x] != f
  {
    TakenIsNoRoot(s, f);
    forall x | x in s.at ensures x.root != f && s.at[x] != f {
      assert PlaceOk(s, x);
      if x.root == f {
        NoTree(s, x);
      }
    }
  }

  lemma RootedOk(s: State, f: nat)
    requires Ok(s) && f in s.role && s.role[f] == Taken && f in s.mem && forall j | 0 <= j < |s.mem[f]| :: Clear(s.mem[f][j])
    ensures Ok(Rooted(s, f)) && !IsRoot(s, f) && forall x | x in s.at :: x.root != f
  {
    hide Present, Descriptor, Clear, EntryOk, FreeOk, FrameOk, RoleOk, PlaceOk;
    RootUnused(s, f);
    var s' := Rooted(s, f);
    forall x | x in s'.at ensures PlaceOk(s', x) {
      RootedPlace(s, f, x);
    }
    forall x, i | x in s'.at && x.Table? && 0 <= i < ENTRIES ensures EntryOk(s', x, i) {
      RootedEntry(s, f, x, i);
    }
    forall g | g in s'.role ensures RoleOk(s', g) {
      RootedRole(s, f, g);
    }
    forall i | 0 <= i < |s'.free| ensures FreeOk(s', i) {
      RootedFree(s, f, i);
    }
    forall g | g in s'.mem ensures FrameOk(s', g) {
      RootedFrame(s, f, g);
    }
  }

  lemma RootedFrame(s: State, f: nat, g: nat)
    requires Ok(s) && f in s.role && g in s.mem
    ensures FrameOk(Rooted(s, f), g)
  {
    assert FrameOk(s, g);
  }

  lemma RootedFree(s: State, f: nat, i: nat)
    requires Ok(s) && f in s.role && s.role[f] == Taken && i < |s.free|
    ensures FreeOk(Rooted(s, f), i)
  {
    assert FreeOk(s, i);
  }

  lemma RootedRole(s: State, f: nat, g: nat)
    requires Ok(s) && f in s.role && s.role[f] == Taken && f in s.mem && g in s.role
    requires forall x | x in s.at :: x.root != f && s.at[x] != f
    ensures RoleOk(Rooted(s, f), g)
  {
    assert RoleOk(s, g);
  }

  lemma RootedPlace(s: State, f: nat, x: Place)
    requires Ok(s) && f in s.role && s.role[f] == Taken && f in s.mem && x in Rooted(s, f).at
    requires forall x | x in s.at :: x.root != f && s.at[x] != f
    ensures PlaceOk(Rooted(s, f), x)
  {
    assert x in s.at ==> PlaceOk(s, x);
  }

  lemma RootedEntry(s: State, f: nat, x: Place, i: nat)
    requires Ok(s) && f in s.role && s.role[f] == Taken && f in s.mem && forall j | 0 <= j < |s.mem[f]| :: Clear(s.mem[f][j])
    requires forall x | x in s.at :: x.root != f && s.at[x] != f
    requires x in Rooted(s, f).at && x.Table? && i < ENTRIES
    ensures EntryOk(Rooted(s, f), x, i)
  {
    hide Present, Descriptor, Clear, PlaceOk, RoleOk, FreeOk, Child;
    ChildRoot(x, i);
    ChildKind(x, i);
    if x in s.at {
      assert EntryOk(s, x, i);
    } else {
      assert FrameOk(s, f);
      ClearAbsent(s.mem[f][i]);
    }
  }

  lemma RootedKeeps(s: State, f: nat)
    requires Ok(s) && Ok(Rooted(s, f)) && forall x | x in s.at :: x.root != f
    ensures SameMaps(s, Rooted(s, f)) && Kept(s, Rooted(s, f)) && OnlyOf(s, Rooted(s, f), f)
  {
    hide Lookup, Ok, Index, TableOf;
    var s' := Rooted(s, f);
    forall x | x in s.at && x in s'.at && x.User? ensures SamePage(s, s', x) {
      UserRole(s, x.root, x.vpn);
    }
    forall r: nat, v: nat | IsRoot(s, r) && v < VPNS ensures Translate(s', r, v) == Translate(s, r, v) {
      TranslateLeaf(s, r, v);
      TranslateLeaf(s', r, v);
    }
  }

  /** pgdir_init.  Not ok is its panic when memory runs out. */
  method PgdirInit(vm: Vm) returns (ok: bool, r: nat)
    requires vm.Valid()
    modifies vm
    ensures vm.Valid() && (ok <==> old(vm.free) != [])
    ensures !ok ==> vm.S() == old(vm.S())
    ensures ok ==> r == old(vm.free)[0] && forall p: nat :: Copying(old(vm.S()), vm.S(), p, r, 0)
    ensures ok ==> vm.at == old(vm.at)[Table(r, 0, 0) := r] && vm.free == old(vm.free)[1..]
  {
    hide Ok, Copying;
    ghost var s := vm.S();
    r := vm.Kalloc();
    if r == 0 {
      return false, 0;
    }
    TakeAndFill(s, ZeroPage());
    ghost var s1 := State(s.mem[r := ZeroPage()], s.at, s.role[r := Taken], s.free[1..]);
    vm.mem := vm.mem[r := ZeroPage()];
    assert vm.mem == s1.mem && vm.S() == s1;
    FreshRoot(s, s1, r);
    vm.at := vm.at[Table(r, 0, 0) := r];
    vm.role := vm.role[r := At(Table(r, 0, 0))];
    assert vm.S() == Rooted(s1, r);
    ok := true;
  }

  lemma FreshRoot(s: State, s1: State, f: nat)
    requires Ok(s) && Ok(s1) && s.free != [] && f == s.free[0] && MoreTables(s, s1) && s1.at == s.at && s1.free == s.free[1..]
    requires s1.role == s.role[f := Taken] && f in s.role && s.role[f] == Free && f in s1.mem && s1.mem[f] == ZeroPage()
    ensures Ok(Rooted(s1, f)) && forall p: nat :: Copying(s, Rooted(s1, f), p, f, 0)
  {
    hide Ok, Lookup, Clear, Kept, SameMaps;
    ZeroAbsent();
    RootedOk(s1, f);
    RootedKeeps(s1, f);
    SameTwice(s, s1, Rooted(s1, f));
  }

  // Copying

  /** The new root child and whatever hangs on it, and pages that were taken, are the only
      difference between s and s1. */
  ghost predicate Beside(s: State, s1: State, child: nat) {
    && IsRoot(s1, child) && child in s.role && s.role[child] == Free
    && SameMaps(s, s1) && Kept(s, s1) && OnlyOf(s, s1, child)
    && (forall x | x in s.at :: x in s1.at && x.root != child)
    && (forall f | f in s.role && s.role[f] == Taken :: f in s1.role && s1.role[f] == Taken)
    && (forall f | f in s.role && s.role[f] == Taken && f in s.mem :: f in s1.mem && s1.mem[f] == s.mem[f])
    && s1.role.Keys == s.role.Keys
    && |s1.free| < |s.free| && s1.free == s.free[|s.free| - |s1.free|..]
  }

  /** Pages below n of pgdir were copied to the new root child; everything else is kept, and no
      page is lost. */
  ghost predicate Copying(s: State, s1: State, pgdir: nat, child: nat, n: nat) {
    && Beside(s, s1, child) && Conserved(s, s1)
    && (forall v: nat :: User(child, v) in s1.at <==> v < n)
    && (forall v: nat | v < n :: CopiedPage(s, s1, pgdir, child, v))
  }

  /** Page v of the child is a fresh frame with the bytes of page v of the parent, and with its
      PTE_USER and PTE_RO bits. */
  ghost predicate CopiedPage(s: State, s1: State, pgdir: nat, child: nat, v: nat) {
    && User(pgdir, v) in s.at && User(child, v) in s1.at && Translate(s, pgdir, v).Some?
    && var f, g := s.at[User(pgdir, v)], s1.at[User(child, v)];
    && f in s.mem && g in s1.mem && s1.mem[g] == s.mem[f] && g in s.free
    && Translate(s1, child, v) == Some(Word(g, (Translate(s, pgdir, v).value.flags & 0x0C0) | 0x407))
  }

  /** Two pages that user code may use in the same way: PTE_USER is 0x040 and PTE_RO is 0x080. */
  ghost predicate SameAccess(x: Option<Word>, y: Option<Word>) {
    x.Some? && y.Some? && y.value.flags & 0x0C0 == x.value.flags & 0x0C0 && y.value.flags & 0x407 == 0x407
  }

  lemma AccessCopied(s: State, s1: State, pgdir: nat, child: nat, n: nat)
    requires Copying(s, s1, pgdir, child, n)
    ensures forall v: nat | v < n :: SameAccess(Translate(s, pgdir, v), Translate(s1, child, v))
  {
    hide Translate, Beside, Conserved;
    forall v: nat | v < n ensures SameAccess(Translate(s, pgdir, v), Translate(s1, child, v)) {
      assert CopiedPage(s, s1, pgdir, child, v);
    }
  }

  datatype CopyResult = Copied(child: nat) | NoPage | Panic

  /** One turn of the loop of copyuvm, for the page at address a; g is what it lacked. */
  method CopyOne(vm: Vm, pgdir: nat, child: nat, a: nat, ghost s: State) returns (r: CopyResult, ghost g: Growth)
    requires vm.Valid() && Ok(s) && IsRoot(s, pgdir) && a % PGSIZE == 0 && a + PGSIZE <= VA_LIMIT
    requires Copying(s, vm.S(), pgdir, child, a / PGSIZE)
    modifies vm
    ensures vm.Valid()
    ensures r.Panic? <==> User(pgdir, a / PGSIZE) !in s.at
    ensures r.Copied? ==> Copying(s, vm.S(), pgdir, child, a / PGSIZE + 1)
    ensures r.NoPage? ==> vm.free == [] && Beside(s, vm.S(), child)
    ensures !r.Panic? ==> Uses(old(vm.S()), vm.S(), child, a / PGSIZE, a / PGSIZE + 1, if g.NoTable? then -1 else 0)
    ensures r.NoPage? ==> !g.Grown? && User(child, a / PGSIZE) !in vm.at && (g.NoTable? ==> TableOf(child, 3, a / PGSIZE) !in vm.at)
    ensures r.Copied? ==> g.Grown?
  {
    hide Uses, Ok, Copying, Beside, Clear, Present, Descriptor, Lookup, Translate, SameMaps, Kept, MoreTables, Mapping,
      OnlyOf, Index, Child, Conserved, CopiedPage;
    ghost var s1, v := vm.S(), a / PGSIZE;
    g := Growth.NoPage;
    BothRoots(s, s1, pgdir, child, v);
    UsesNone(s1, child, v, v + 1);
    NoUserWithoutTable(s1, pgdir, v);
    var found, t, i := vm.PgdirWalk(pgdir, a, false);
    if !found {
      return Panic, g;
    }
    TableEntry(s1, TableOf(pgdir, 3, v), i);
    NextTable(pgdir, 3, v);
    var pte := vm.mem[t][i];
    if pte.flags & (PTE_PAGE | PTE_P) == 0 {
      ClearPte(pte);
      return Panic, g;
    }
    ClearPte(pte);
    UserRole(s1, pgdir, v);
    var pa, perm := pte.addr, pte.flags & (PTE_USER | PTE_RO);
    var page := vm.Kalloc();
    if page == 0 {
      return CopyResult.NoPage, g;
    }
    TakeAndFill(s1, s1.mem[pa]);
    vm.mem := vm.mem[page := vm.mem[pa]];
    ghost var s2 := vm.S();
    assert vm.mem == s1.mem[page := s1.mem[pa]];
    RootKept(s1, s2, child);
    UsersKept(s1, s2, User(child, v));
    OnePage(a, page);
    var m;
    ghost var done;
    m, done := vm.MapRegion(child, a, PGSIZE, page, perm);
    ghost var s3 := vm.S();
    KeysKept(s2, s3);
    UsesTaken(s1, s2, child, v, v + 1);
    UsesTwice(s1, s2, s3, child, v, v + 1, -1, done);
    if m.NoMemory? {
      MappedNothing(s2, s3, child, v, page, perm | 0x407);
      BesideMore(s, s1, s2, s3, child);
      NoUserWithoutTable(s3, child, v);
      return CopyResult.NoPage, NoTable;
    }
    Translation(s1, pgdir, v);
    NewlyPlaced(s2, s3, child, v, page, perm | 0x407);
    CopyMore(s, s1, s2, s3, pgdir, child, v, page, pte);
    return Copied(child), Grown;
  }

  lemma NewlyPlaced(s2: State, s3: State, root: nat, v: nat, m: nat, flags: bv12)
    requires Ok(s3) && Mapping(s2, s3, root, v, 1, m, flags)
    ensures m in s3.role && s3.role[m] != Taken
  {
    hide Translate, Ok;
    PlacedNow(s3, root, v);
  }

  lemma ClearPte(w: Word)
    ensures Clear(w) <==> w.flags & (PTE_PAGE | PTE_P) == 0
    ensures Clear(w) ==> !Present(w)
  {
  }

  lemma KeysKept(s: State, s': State)
    requires Conserved(s, s')
    ensures s'.role.Keys == s.role.Keys
  {
  }

  lemma BothRoots(s: State, s1: State, pgdir: nat, child: nat, n: nat)
    requires Copying(s, s1, pgdir, child, n) && IsRoot(s, pgdir)
    ensures Beside(s, s1, child) && IsRoot(s1, pgdir) && IsRoot(s1, child) && pgdir != child
    ensures User(pgdir, n) in s1.at <==> User(pgdir, n) in s.at
    ensures User(child, n) !in s1.at
  {
    hide Translate, CopiedPage, Kept;
  }

  lemma BesideMore(s: State, s1: State, s2: State, s3: State, child: nat)
    requires Beside(s, s1, child) && MoreTables(s1, s2) && MoreTables(s2, s3) && OnlyOf(s2, s3, child)
    requires s2.at == s1.at && s2.role.Keys == s1.role.Keys && s3.role.Keys == s2.role.Keys
    ensures Beside(s, s3, child)
  {
    hide Translate, SameMaps, Kept;
    SameTwice(s, s1, s2);
    SameTwice(s, s2, s3);
    assert s3.free == s.free[|s.free| - |s3.free|..];
  }

  /** What kalloc, memcpy and map_region made of s1. */
  ghost predicate PageAdded(s1: State, s2: State, s3: State, child: nat, v: nat, m: nat, p: Page, flags: bv12) {
    && s1.free != [] && m == s1.free[0] && m in s1.role && s1.role[m] == Free
    && s2 == State(s1.mem[m := p], s1.at, s1.role[m := Taken], s1.free[1..]) && MoreTables(s1, s2)
    && Mapping(s2, s3, child, v, 1, m, flags) && OnlyOf(s2, s3, child) && Conserved(s2, s3)
    && m in s3.role && s3.role[m] != Taken
  }

  lemma BesideMap(s: State, s1: State, s2: State, s3: State, child: nat, v: nat, m: nat, p: Page, flags: bv12)
    requires Beside(s, s1, child) && PageAdded(s1, s2, s3, child, v, m, p, flags)
    ensures Beside(s, s3, child)
  {
    hide Translate, Kept, SameMaps, MapsRegion;
    KeptTwice(s, s1, s2);
    KeptTwice(s, s2, s3);
    SameThenMapped(s, s1, s2, s3, child, v, m, flags);
    forall f | f in s.role && s.role[f] == Taken ensures s3.role[f] == Taken {
      assert s2.at == s1.at;
      OtherStillTaken(s2, s3, child, v, m, f);
    }
    assert s3.free == s.free[|s.free| - |s3.free|..];
  }

  lemma SameThenMapped(s: State, s1: State, s2: State, s3: State, child: nat, v: nat, m: nat, flags: bv12)
    requires SameMaps(s, s1) && SameMaps(s1, s2) && SameRoots(s2, s3) && MapsRegion(s2, s3, child, v, 1, m, flags)
    requires forall x | x in s.at :: x.root != child
    ensures SameMaps(s, s3)
  {
    hide Translate;
  }

  lemma OldCopy(s: State, s1: State, s2: State, s3: State, pgdir: nat, child: nat, v: nat, m: nat, p: Page, flags: bv12, u: nat)
    requires CopiedPage(s, s1, pgdir, child, u) && PageAdded(s1, s2, s3, child, v, m, p, flags) && u < v < VPNS && IsRoot(s1, child)
    ensures CopiedPage(s, s3, pgdir, child, u)
  {
    hide Translate, Kept;
    KeptContents(s1, s2, User(child, u));
    KeptContents(s2, s3, User(child, u));
    assert Translate(s2, child, u) == Translate(s1, child, u);
    assert Translate(s3, child, u) == Translate(s2, child, u);
  }

  lemma NewCopy(s: State, s1: State, s2: State, s3: State, pgdir: nat, child: nat, v: nat, m: nat, pte: Word)
    requires Beside(s, s1, child) && IsRoot(s, pgdir) && v < VPNS && Translate(s1, pgdir, v) == Some(pte)
    requires User(pgdir, v) in s.at && User(pgdir, v) in s1.at && pte.addr == s1.at[User(pgdir, v)] && pte.addr in s1.mem
    requires PageAdded(s1, s2, s3, child, v, m, s1.mem[pte.addr], (pte.flags & 0x0C0) | 0x407)
    ensures CopiedPage(s, s3, pgdir, child, v)
  {
    hide Translate, Kept, OnlyOf;
    assert Translate(s, pgdir, v) == Translate(s1, pgdir, v);
    KeptContents(s, s1, User(pgdir, v));
    assert m in s2.mem && s2.mem[m] == s1.mem[pte.addr];
    assert s3.at[User(child, v)] == m;
    assert IsRoot(s2, child) && Translate(s3, child, v) == Some(Word(m, (pte.flags & 0x0C0) | 0x407));
  }

  lemma CopyMore(s: State, s1: State, s2: State, s3: State, pgdir: nat, child: nat, v: nat, m: nat, pte: Word)
    requires Copying(s, s1, pgdir, child, v) && IsRoot(s, pgdir) && v < VPNS && Translate(s1, pgdir, v) == Some(pte)
    requires User(pgdir, v) in s.at && User(pgdir, v) in s1.at && pte.addr == s1.at[User(pgdir, v)] && pte.addr in s1.mem
    requires PageAdded(s1, s2, s3, child, v, m, s1.mem[pte.addr], (pte.flags & 0x0C0) | 0x407)
    ensures Copying(s, s3, pgdir, child, v + 1)
  {
    hide Translate, CopiedPage, Beside, PageAdded;
    var p, flags := s1.mem[pte.addr], (pte.flags & 0x0C0) | 0x407;
    BesideMap(s, s1, s2, s3, child, v, m, p, flags);
    forall u: nat | u < v + 1 ensures CopiedPage(s, s3, pgdir, child, u) {
      if u < v {
        StillRoot(s, s1, child);
        OldCopy(s, s1, s2, s3, pgdir, child, v, m, p, flags, u);
      } else {
        NewCopy(s, s1, s2, s3, pgdir, child, v, m, pte);
      }
    }
    ConservedMore(s, s1, s2, s3, child, v, m, p, flags);
    forall u: nat ensures User(child, u) in s3.at <==> u < v + 1 {
      UsersAfter(s1, s2, s3, child, v, m, p, flags, u);
    }
  }

  lemma ConservedMore(s: State, s1: State, s2: State, s3: State, child: nat, v: nat, m: nat, p: Page, flags: bv12)
    requires Conserved(s, s1) && PageAdded(s1, s2, s3, child, v, m, p, flags)
    ensures Conserved(s, s3)
  {
    hide Mapping, MoreTables;
  }

  lemma StillRoot(s: State, s1: State, child: nat)
    requires Beside(s, s1, child)
    ensures IsRoot(s1, child)
  {
  }

  lemma UsersAfter(s1: State, s2: State, s3: State, child: nat, v: nat, m: nat, p: Page, flags: bv12, u: nat)
    requires PageAdded(s1, s2, s3, child, v, m, p, flags)
    ensures User(child, u) in s3.at <==> u == v || User(child, u) in s1.at
  {
    hide Translate, Kept, MapsRegion, SameMaps;
  }

  // Giving up

  ghost function AbandonedAt(at: map<Place, nat>, root: nat): (r: map<Place, nat>)
    ensures forall x :: x in r <==> x in at && x.root != root
    ensures forall x | x in r :: r[x] == at[x]
  {
    map x | x in at && x.root != root :: at[x]
  }

  ghost function AbandonedRole(role: map<nat, Role>, root: nat): (r: map<nat, Role>)
    ensures r.Keys == role.Keys
    ensures forall f | f in role :: r[f] == if role[f].At? && role[f].place.root == root then Taken else role[f]
  {
    map f | f in role :: if role[f].At? && role[f].place.root == root then Taken else role[f]
  }

  /** Nothing of a root is in use any more; its pages are still taken. */
  ghost function Abandoned(s: State, root: nat): State {
    State(s.mem, AbandonedAt(s.at, root), AbandonedRole(s.role, root), s.free)
  }

  lemma AbandonedOk(s: State, root: nat)
    requires Ok(s)
    ensures Ok(Abandoned(s, root))
  {
    hide Present, Descriptor, Clear, EntryOk, FreeOk, FrameOk, RoleOk, PlaceOk, AbandonedAt, AbandonedRole;
    var s' := Abandoned(s, root);
    forall x | x in s'.at ensures PlaceOk(s', x) {
      AbandonedPlace(s, root, x);
    }
    forall x, i | x in s'.at && x.Table? && 0 <= i < ENTRIES ensures EntryOk(s', x, i) {
      AbandonedEntry(s, root, x, i);
    }
    forall g | g in s'.role ensures RoleOk(s', g) {
      AbandonedRoleOk(s, root, g);
    }
    forall i | 0 <= i < |s'.free| ensures FreeOk(s', i) {
      AbandonedFree(s, root, i);
    }
    forall g | g in s'.mem ensures FrameOk(s', g) {
      AbandonedFrame(s, root, g);
    }
  }

  lemma AbandonedFrame(s: State, root: nat, g: nat)
    requires Ok(s) && g in s.mem
    ensures FrameOk(Abandoned(s, root), g)
  {
    assert FrameOk(s, g);
  }

  lemma AbandonedFree(s: State, root: nat, i: nat)
    requires Ok(s) && i < |s.free|
    ensures FreeOk(Abandoned(s, root), i)
  {
    assert FreeOk(s, i);
  }

  lemma AbandonedRoleOk(s: State, root: nat, g: nat)
    requires Ok(s) && g in s.role
    ensures RoleOk(Abandoned(s, root), g)
  {
    assert RoleOk(s, g);
  }

  lemma AbandonedPlace(s: State, root: nat, x: Place)
    requires Ok(s) && x in s.at && x.root != root
    ensures PlaceOk(Abandoned(s, root), x)
  {
    assert PlaceOk(s, x);
  }

  lemma AbandonedEntry(s: State, root: nat, x: Place, i: nat)
    requires Ok(s) && x in s.at && x.root != root && x.Table? && i < ENTRIES
    ensures EntryOk(Abandoned(s, root), x, i)
  {
    hide Present, Descriptor, Clear, Child;
    ChildRoot(x, i);
    assert EntryOk(s, x, i);
  }

  lemma AbandonedKeeps(s: State, root: nat, r: nat, v: nat)
    requires Ok(s) && IsRoot(s, r) && r != root && v < VPNS
    ensures IsRoot(Abandoned(s, root), r) && Translate(Abandoned(s, root), r, v) == Translate(s, r, v)
  {
    hide Lookup, Ok, Index;
    var s' := Abandoned(s, root);
    AbandonedOk(s, root);
    TranslateLeaf(s, r, v);
    TranslateLeaf(s', r, v);
  }

  /** What a copyuvm that ran out of memory leaves: every address space is as before, and of the
      free pages only the one that was the root of the child is free again. */
  ghost predicate Leaked(s: State, s': State) {
    && s.free != [] && s'.free == [s.free[0]]
    && SameMaps(s, s') && Kept(s, s') && s'.at.Keys == s.at.Keys
    && s'.role.Keys == s.role.Keys
    && forall f | f in s.role :: s'.role[f] == if s.role[f] == Free && f != s.free[0] then Taken else s.role[f]
  }

  lemma GaveUp(s: State, s1: State, child: nat)
    requires Ok(s) && Ok(s1) && Beside(s, s1, child) && s1.free == [] && s.free != [] && child == s.free[0]
    ensures
      var s2 := Abandoned(s1, child);
      && Ok(s2) && child in s2.role && s2.role[child] == Taken && child in s2.mem && |s2.mem[child]| == ENTRIES
      && Ok(Give(s2, child)) && Leaked(s, Give(s2, child))
  {
    hide Ok, Lookup, Present, Descriptor, PlaceOk, Beside, AbandonedAt, AbandonedRole, SameMaps, Kept;
    var s2 := Abandoned(s1, child);
    AbandonedOk(s1, child);
    RootRole(s, s1, child);
    GiveOk(s2, child);
    GiveKeeps(s2, child);
    AbandonedSame(s, s1, child);
    SameTwice(s, s2, Give(s2, child));
    assert s2.at.Keys == s.at.Keys;
    forall f | f in s.role ensures s2.role[f] == if s.role[f] == Free then Taken else s.role[f] {
      LeakedRole(s, s1, child, f);
    }
  }

  lemma RootRole(s: State, s1: State, child: nat)
    requires Ok(s1) && Beside(s, s1, child)
    ensures child in s1.role && s1.role[child] == At(Table(child, 0, 0)) && s1.role.Keys == s.role.Keys
    ensures child in s.role && s.role[child] == Free
    ensures forall x :: x in s.at <==> x in s1.at && x.root != child
  {
    hide Translate, Kept, SameMaps;
    assert PlaceOk(s1, Table(child, 0, 0));
  }

  lemma AbandonedSame(s: State, s1: State, child: nat)
    requires Ok(s1) && Beside(s, s1, child)
    ensures SameMaps(s, Abandoned(s1, child)) && Kept(s, Abandoned(s1, child))
  {
    hide Ok, Lookup, AbandonedAt, AbandonedRole;
    var s2 := Abandoned(s1, child);
    forall r: nat, v: nat | IsRoot(s, r) && v < VPNS ensures Translate(s2, r, v) == Translate(s, r, v) {
      AbandonedKeeps(s1, child, r, v);
    }
    forall x | x in s.at && x.User? ensures SamePage(s, s2, x) {
      assert SamePage(s, s1, x);
    }
  }

  lemma LeakedRole(s: State, s1: State, child: nat, f: nat)
    requires Ok(s) && Ok(s1) && Beside(s, s1, child) && s1.free == [] && f in s.role
    ensures Abandoned(s1, child).role[f] == if s.role[f] == Free then Taken else s.role[f]
  {
    hide Translate, SameMaps, Kept, AbandonedAt, AbandonedRole, FrameOk, EntryOk, FreeOk;
    assert RoleOk(s1, f) && RoleOk(s, f);
    forall x | x in s.at ensures s1.at[x] == s.at[x] && PlaceOk(s, x) && PlaceOk(s1, x) {
      KeptPlace(s, s1, x);
    }
  }

  /** There are free pages for a new root, n pages and their tables. */
  ghost predicate CopyFits(free: seq<nat>, n: nat) {
    free != [] && |Wanted(free[0], 0, n)| < |free|
  }

  /** The error path of copyuvm, where vm_free frees the root only. */
  method GiveUp(vm: Vm, child: nat, ghost s: State)
    requires vm.Valid() && Ok(s) && Beside(s, vm.S(), child) && vm.free == [] && s.free != [] && child == s.free[0]
    modifies vm
    ensures vm.Valid() && Leaked(s, vm.S())
  {
    hide Ok, Beside, Leaked;
    GaveUp(s, vm.S(), child);
    vm.at := AbandonedAt(vm.at, child);
    vm.role := AbandonedRole(vm.role, child);
    var ok := vm.Kfree(child);
  }

  lemma NoFit(n: nat)
    ensures !CopyFits([], n)
  {
  }

  lemma NewRoot(s: State, s1: State, child: nat, n: nat)
    requires Beside(s, s1, child) && s.free != [] && child == s.free[0] && s1.free == s.free[1..] && s1.at == s.at[Table(child, 0, 0) := child]
    ensures EnoughPages(s1, child, 0, n) <==> CopyFits(s.free, n)
  {
    hide Translate, SameMaps, Kept;
    forall x | x in Wanted(child, 0, n) ensures x !in s1.at {
      var v: nat, level: nat :| v < n && 1 <= level <= 4 && x == OnPath(child, v, level);
    }
    assert Wanted(child, 0, n) - s1.at.Keys == Wanted(child, 0, n);
  }

  lemma AllCopied(s0: State, s: State, s1: State, pgdir: nat, child: nat, n: nat)
    requires Ok(s1) && Copying(s0, s1, pgdir, child, n) && Uses(s, s1, child, 0, n, 0)
    ensures EnoughPages(s, child, 0, n)
  {
    hide Ok, Uses, Wanted, CopiedPage;
    AllUsed(s, s1, child, 0, n);
  }

  lemma CopyingBeside(s: State, s1: State, pgdir: nat, child: nat, n: nat)
    requires Copying(s, s1, pgdir, child, n)
    ensures Beside(s, s1, child)
  {
  }

  /** Copies the pages below sz of an address space to a new one: exactly when all of them are mapped
      and memory suffices.  When it runs out, the pages that the copy took are lost, but for its root. */
  method Copyuvm(vm: Vm, pgdir: nat, sz: nat) returns (r: CopyResult)
    requires vm.Valid() && IsRoot(vm.S(), pgdir) && sz <= VA_LIMIT
    modifies vm
    ensures vm.Valid()
    ensures r.Copied? ==> Copying(old(vm.S()), vm.S(), pgdir, r.child, PageCeil(sz))
    ensures r.Copied? ==> forall v: nat | v < PageCeil(sz) :: SameAccess(Translate(old(vm.S()), pgdir, v), Translate(vm.S(), r.child, v))
    ensures r.NoPage? ==> Leaked(old(vm.S()), vm.S())
    ensures r.Panic? ==> old(vm.free) == [] || exists v: nat :: v < PageCeil(sz) && User(pgdir, v) !in old(vm.at)
    ensures r.Copied? <==> CopyFits(old(vm.free), PageCeil(sz)) && forall v: nat | v < PageCeil(sz) :: User(pgdir, v) in old(vm.at)
    ensures r.NoPage? ==> !CopyFits(old(vm.free), PageCeil(sz))
  {
    hide Ok, Copying, Beside, Leaked, CopiedPage, Uses, EnoughPages, CopyFits, Wanted;
    ghost var s := vm.S();
    var ok, child := PgdirInit(vm);
    if !ok {
      NoFit(PageCeil(sz));
      return Panic;
    }
    ghost var s0, to := vm.S(), PageCeil(sz);
    CopyingBeside(s, s0, pgdir, child, 0);
    NewRoot(s, s0, child, to);
    UsesNone(s0, child, 0, to);
    var i := 0;
    while i < sz
      invariant vm.Valid() && i % PGSIZE == 0 && i / PGSIZE <= PageCeil(sz)
      invariant Copying(s, vm.S(), pgdir, child, i / PGSIZE) && Uses(s0, vm.S(), child, 0, to, 0)
      invariant forall v: nat | v < i / PGSIZE :: User(pgdir, v) in s.at
    {
      BelowEnd(i, sz);
      ghost var s1, g := vm.S(), Grown;
      r, g := CopyOne(vm, pgdir, child, i, s);
      if r.Panic? {
        return;
      }
      if r.NoPage? {
        OutOfPages(s0, s1, vm.S(), child, 0, i / PGSIZE, to, g);
        GiveUp(vm, child, s);
        return;
      }
      UsesWider(s1, vm.S(), child, i / PGSIZE, 0, to, 0);
      UsesTwice(s0, s1, vm.S(), child, 0, to, 0, 0);
      i := i + PGSIZE;
    }
    AtEnd(i, sz);
    AllCopied(s, s0, vm.S(), pgdir, child, to);
    AccessCopied(s, vm.S(), pgdir, child, to);
    return Copied(child);
  }
}
