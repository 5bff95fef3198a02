/** Physical pages, the four-level page tables built from them, and what each page is used for:
    the state behind kern/kalloc.c and kern/vm.c.  A page is 512 64-bit words; a word is split as
    PTE_ADDR and PTE_FLAGS of inc/mmu.h split it.  Kernel addresses are physical ones. */
module Frames {
  import opened Options

  const PGSIZE: nat := 4096
  const ENTRIES: nat := 512
  const PHYSTOP: nat := 0x3F000000
  const VPNS: nat := 0x10_0000_0000      // page numbers below 2^48 bytes

  datatype Word = Word(addr: nat, flags: bv12)

  const PTE_P: bv12 := 0x001
  const PTE_PAGE: bv12 := 0x002
  const PTE_TABLE: bv12 := 0x002
  const PTE_USER: bv12 := 0x040
  const PTE_RW: bv12 := 0x000
  const PTE_RO: bv12 := 0x080
  const PTE_AF: bv12 := 0x400
  const PTE_NORMAL: bv12 := 0x405        // valid, MT_NORMAL << 2, PTE_AF

  /** What the kernel tests. */
  predicate Present(w: Word) { w.flags & PTE_P != 0 }

  /** What the hardware takes for an entry that points to a table, or in the last level to a page. */
  predicate Descriptor(w: Word) { w.flags & 0x003 == 0x003 }

  /** Neither of the two bits that mark a table or a page. */
  predicate Clear(w: Word) { w.flags & (PTE_PAGE | PTE_P) == 0 }

  type Page = seq<Word>

  /** What a page can be used for in an address space: a table for the addresses that share the
      first `level` indices, or the user page of a page number. */
  datatype Place = Table(root: nat, level: nat, prefix: nat) | User(root: nat, vpn: nat)

  /** On the free list, placed, or taken from the allocator and not placed. */
  datatype Role = Free | At(place: Place) | Taken

  datatype State = State(mem: map<nat, Page>, at: map<Place, nat>, role: map<nat, Role>, free: seq<nat>)

  /** The page numbers with the same index at a level span this many pages. */
  function Span(level: nat): nat
    requires level <= 3
  {
    if level == 0 then 0x800_0000 else if level == 1 then 0x4_0000 else if level == 2 then 512 else 1
  }

  /** PTX(level, va) for va = vpn << 12. */
  function Index(level: nat, vpn: nat): (i: nat)
    requires level <= 3
    ensures i < ENTRIES
  {
    vpn / Span(level) % ENTRIES
  }

  /** The indices of vpn before `level`, as one number. */
  function Prefix(level: nat, vpn: nat): nat
    requires level <= 4
  {
    if level == 4 then vpn else vpn / Span(level) / ENTRIES
  }

  function Child(x: Place, i: nat): Place
    requires x.Table?
  {
    if x.level < 3 then Table(x.root, x.level + 1, ENTRIES * x.prefix + i) else User(x.root, ENTRIES * x.prefix + i)
  }

  function TableOf(root: nat, level: nat, vpn: nat): Place
    requires level <= 3
  {
    Table(root, level, Prefix(level, vpn))
  }

  /** Following one index leads from the table of a page number to the next one. */
  lemma NextTable(root: nat, level: nat, vpn: nat)
    requires level <= 3
    ensures Child(TableOf(root, level, vpn), Index(level, vpn)) ==
            if level < 3 then TableOf(root, level + 1, vpn) else User(root, vpn)
  {
    assert vpn / Span(level) == ENTRIES * (vpn / Span(level) / ENTRIES) + vpn / Span(level) % ENTRIES;
  }

  /** Different entries lead to different places. */
  lemma ChildInjective(x: Place, i: nat, y: Place, j: nat)
    requires x.Table? && y.Table? && x.level <= 3 && y.level <= 3 && i < ENTRIES && j < ENTRIES
    requires Child(x, i) == Child(y, j)
    ensures x == y && i == j
  {
  }

  // Well-formed states

  ghost predicate FrameOk(s: State, f: nat)
    requires f in s.mem
  {
    f % PGSIZE == 0 && 0 < f < PHYSTOP && |s.mem[f]| == ENTRIES && f in s.role
  }

  /** A page is where its place says, and every place below the root hangs on a table. */
  ghost predicate PlaceOk(s: State, x: Place)
    requires x in s.at
  {
    && s.at[x] in s.mem && s.at[x] in s.role && s.role[s.at[x]] == At(x)
    && match x
       case Table(root, level, prefix) =>
         level <= 3 && if level == 0 then prefix == 0 && s.at[x] == root else Table(root, level - 1, prefix / ENTRIES) in s.at
       case User(root, vpn) => Table(root, 3, vpn / ENTRIES) in s.at
  }

  /** An entry is valid exactly when the place below it is in use, and then it points there;
      otherwise it is clear. */
  ghost predicate EntryOk(s: State, x: Place, i: nat)
    requires x in s.at && x.Table?
  {
    s.at[x] in s.mem && i < |s.mem[s.at[x]]| &&
    var w := s.mem[s.at[x]][i];
    (Present(w) <==> Child(x, i) in s.at) && (Descriptor(w) <==> Child(x, i) in s.at) && (if Child(x, i) in s.at then w.addr == s.at[Child(x, i)] else Clear(w))
  }

  ghost predicate RoleOk(s: State, f: nat)
    requires f in s.role
  {
    && f in s.mem
    && match s.role[f]
       case At(x) => x in s.at && s.at[x] == f
       case Free => f in s.free
       case Taken => true
  }

  /** The free pages are linked through their first words. */
  ghost predicate FreeOk(s: State, i: nat)
    requires i < |s.free|
  {
    && s.free[i] in s.mem && |s.mem[s.free[i]]| == ENTRIES
    && s.free[i] in s.role && s.role[s.free[i]] == Free
    && s.mem[s.free[i]][0].addr == (if i + 1 < |s.free| then s.free[i + 1] else 0)
  }

  ghost predicate Ok(s: State) {
    && (forall f | f in s.mem :: FrameOk(s, f))
    && (forall x | x in s.at :: PlaceOk(s, x))
    && (forall x, i | x in s.at && x.Table? && 0 <= i < ENTRIES :: EntryOk(s, x, i))
    && (forall f | f in s.role :: RoleOk(s, f))
    && (forall i | 0 <= i < |s.free| :: FreeOk(s, i))
    && (forall i, j | 0 <= i < j < |s.free| :: s.free[i] != s.free[j])
  }

  // Translation

  /** The table walk of the hardware from a table of some level on. */
  ghost function Lookup(mem: map<nat, Page>, t: nat, level: nat, vpn: nat): Option<Word>
    requires level <= 3
    decreases 3 - level
  {
    if t !in mem || |mem[t]| != ENTRIES || !Descriptor(mem[t][Index(level, vpn)]) then None
    else if level == 3 then Some(mem[t][Index(level, vpn)])
    else Lookup(mem, mem[t][Index(level, vpn)].addr, level + 1, vpn)
  }

  ghost function Translate(s: State, root: nat, vpn: nat): Option<Word> {
    Lookup(s.mem, root, 0, vpn)
  }

  ghost predicate IsRoot(s: State, root: nat) { Table(root, 0, 0) in s.at }

  lemma {:induction false} LookupFrom(s: State, root: nat, level: nat, vpn: nat)
    requires Ok(s) && level <= 3 && TableOf(root, level, vpn) in s.at
    ensures
      var r := Lookup(s.mem, s.at[TableOf(root, level, vpn)], level, vpn);
      if User(root, vpn) in s.at
      then TableOf(root, 3, vpn) in s.at && s.at[TableOf(root, 3, vpn)] in s.mem
           && Index(3, vpn) < |s.mem[s.at[TableOf(root, 3, vpn)]]|
           && r == Some(s.mem[s.at[TableOf(root, 3, vpn)]][Index(3, vpn)])
      else r == None
    decreases 3 - level
  {
    hide Present, Descriptor, Clear, Span;
    var x := TableOf(root, level, vpn);
    assert PlaceOk(s, x) && FrameOk(s, s.at[x]) && EntryOk(s, x, Index(level, vpn));
    NextTable(root, level, vpn);
    if level < 3 {
      if TableOf(root, level + 1, vpn) in s.at {
        LookupFrom(s, root, level + 1, vpn);
      } else {
        NoUserBelow(s, root, level + 1, vpn);
      }
    }
  }

  lemma {:induction false} NoUserBelow(s: State, root: nat, level: nat, vpn: nat)
    requires Ok(s) && level <= 3 && TableOf(root, level, vpn) !in s.at
    ensures User(root, vpn) !in s.at
    decreases 3 - level
  {
    if User(root, vpn) in s.at {
      assert PlaceOk(s, User(root, vpn));
    }
    if level < 3 {
      if TableOf(root, level + 1, vpn) in s.at {
        assert PlaceOk(s, TableOf(root, level + 1, vpn));
        ParentPrefix(level, vpn);
      }
      NoUserBelow(s, root, level + 1, vpn);
    }
  }

  lemma ParentPrefix(level: nat, vpn: nat)
    requires level < 3
    ensures Prefix(level + 1, vpn) / ENTRIES == Prefix(level, vpn)
  {
  }

  /** Translation by the tables is what the places say. */
  lemma Translation(s: State, root: nat, vpn: nat)
    requires Ok(s) && IsRoot(s, root) && vpn < VPNS
    ensures
      if User(root, vpn) in s.at
      then TableOf(root, 3, vpn) in s.at && s.at[TableOf(root, 3, vpn)] in s.mem
           && Index(3, vpn) < |s.mem[s.at[TableOf(root, 3, vpn)]]|
           && Translate(s, root, vpn) == Some(s.mem[s.at[TableOf(root, 3, vpn)]][Index(3, vpn)])
           && Translate(s, root, vpn).value.addr == s.at[User(root, vpn)]
      else Translate(s, root, vpn) == None
  {
    assert PlaceOk(s, Table(root, 0, 0));
    assert TableOf(root, 0, vpn) == Table(root, 0, 0);
    LookupFrom(s, root, 0, vpn);
    if User(root, vpn) in s.at {
      NextTable(root, 3, vpn);
      assert EntryOk(s, TableOf(root, 3, vpn), Index(3, vpn));
    }
  }

  // Steps

  function Head(free: seq<nat>): nat { if free == [] then 0 else free[0] }

  /** kalloc: the first free page, filled with some junk. */
  function Take(s: State, junk: Page): State
    requires s.free != []
  {
    State(s.mem[s.free[0] := junk], s.at, s.role[s.free[0] := Taken], s.free[1..])
  }

  /** kfree of a taken page. */
  function Give(s: State, f: nat): State
    requires f in s.mem && |s.mem[f]| == ENTRIES
  {
    State(s.mem[f := s.mem[f][0 := Word(Head(s.free), 0)]], s.at, s.role[f := Free], [f] + s.free)
  }

  /** A taken page put below an entry of a table. */
  function Attach(s: State, x: Place, i: nat, f: nat, w: Word): State
    requires x in s.at && x.Table? && s.at[x] in s.mem && i < |s.mem[s.at[x]]|
  {
    State(s.mem[s.at[x] := s.mem[s.at[x]][i := w]], s.at[Child(x, i) := f], s.role[f := At(Child(x, i))], s.free)
  }

  function Remove(at: map<Place, nat>, x: Place): (r: map<Place, nat>)
    ensures forall y :: y in r <==> y in at && y != x
    ensures forall y | y in r :: r[y] == at[y]
  {
    at - {x}
  }

  /** A user page removed from its entry; it stays taken. */
  function Detach(s: State, x: Place, i: nat): State
    requires x in s.at && x.Table? && s.at[x] in s.mem && i < |s.mem[s.at[x]]| && Child(x, i) in s.at
  {
    State(s.mem[s.at[x] := s.mem[s.at[x]][i := Word(0, 0)]], Remove(s.at, Child(x, i)), s.role[s.at[Child(x, i)] := Taken], s.free)
  }

  /** A taken page given new contents. */
  function Fill(s: State, f: nat, p: Page): State {
    s.(mem := s.mem[f := p])
  }

  lemma TakeOk(s: State, junk: Page)
    requires Ok(s) && s.free != [] && |junk| == ENTRIES
    ensures Ok(Take(s, junk)) && s.free[0] in s.mem && s.role[s.free[0]] == Free && s.free[0] != 0
  {
    hide Present, Descriptor, Clear, Span, Child;
    assert FreeOk(s, 0) && FrameOk(s, s.free[0]);
    var s' := Take(s, junk);
    forall f | f in s'.mem ensures FrameOk(s', f) {
      assert FrameOk(s, f);
    }
    forall x | x in s'.at ensures PlaceOk(s', x) && s.at[x] != s.free[0] {
      assert PlaceOk(s, x);
    }
    forall x, i | x in s'.at && x.Table? && 0 <= i < ENTRIES ensures EntryOk(s', x, i) {
      assert EntryOk(s, x, i);
    }
    forall f | f in s'.role ensures RoleOk(s', f) {
      assert RoleOk(s, f);
    }
    forall i | 0 <= i < |s'.free| ensures FreeOk(s', i) {
      assert FreeOk(s, i + 1) && s'.free[i] == s.free[i + 1];
    }
  }

  lemma GiveOk(s: State, f: nat)
    requires Ok(s) && f in s.role && s.role[f] == Taken
    ensures f in s.mem && |s.mem[f]| == ENTRIES && Ok(Give(s, f))
  {
    hide Present, Descriptor, Clear, Span, Child;
    assert RoleOk(s, f) && FrameOk(s, f);
    var s' := Give(s, f);
    forall g | g in s'.mem ensures FrameOk(s', g) {
      assert FrameOk(s, g);
    }
    forall x | x in s'.at ensures PlaceOk(s', x) && s.at[x] != f {
      assert PlaceOk(s, x);
    }
    forall x, i | x in s'.at && x.Table? && 0 <= i < ENTRIES ensures EntryOk(s', x, i) {
      assert EntryOk(s, x, i);
    }
    forall g | g in s'.role ensures RoleOk(s', g) {
      assert RoleOk(s, g);
    }
    forall i | 0 <= i < |s.free| ensures s.free[i] != f {
      assert FreeOk(s, i);
    }
    forall i | 0 <= i < |s'.free| ensures FreeOk(s', i) {
      if i > 0 {
        assert FreeOk(s, i - 1);
      }
    }
  }

  ghost predicate CanAttach(s: State, x: Place, i: nat, f: nat, w: Word) {
    && x in s.at && x.Table? && i < ENTRIES && Child(x, i) !in s.at
    && f in s.role && s.role[f] == Taken && Present(w) && Descriptor(w) && w.addr == f
    && f in s.mem && (x.level < 3 ==> forall j | 0 <= j < |s.mem[f]| :: Clear(s.mem[f][j]))
  }

  lemma AttachOk(s: State, x: Place, i: nat, f: nat, w: Word)
    requires Ok(s) && CanAttach(s, x, i, f, w)
    ensures s.at[x] in s.mem && |s.mem[s.at[x]]| == ENTRIES && s.at[x] != f
    ensures Ok(Attach(s, x, i, f, w))
  {
    hide Present, Descriptor, Clear, Span, EntryOk, RoleOk, FreeOk;
    assert PlaceOk(s, x) && FrameOk(s, s.at[x]);
    var s' := Attach(s, x, i, f, w);
    forall g | g in s'.mem ensures FrameOk(s', g) {
      assert FrameOk(s, g);
    }
    forall y | y in s'.at ensures PlaceOk(s', y) {
      AttachPlaceOk(s, x, i, f, w, y);
    }
    forall y, j | y in s'.at && y.Table? && 0 <= j < ENTRIES ensures EntryOk(s', y, j) {
      AttachEntryOk(s, x, i, f, w, y, j);
    }
    forall g | g in s'.role ensures RoleOk(s', g) {
      AttachRoleOk(s, x, i, f, w, g);
    }
    forall k | 0 <= k < |s'.free| ensures FreeOk(s', k) {
      TableWriteFreeOk(s, s', x, k);
    }
  }

  /** Free pages do not notice a write to a table, nor what becomes of pages in use. */
  lemma TableWriteFreeOk(s: State, s': State, x: Place, k: nat)
    requires Ok(s) && x in s.at && s.at[x] in s.mem && s'.free == s.free && k < |s.free|
    requires s'.mem.Keys == s.mem.Keys && forall g | g in s.mem && g != s.at[x] :: s'.mem[g] == s.mem[g]
    requires forall g | g in s.role && s.role[g] == Free :: g in s'.role && s'.role[g] == Free
    ensures FreeOk(s', k)
  {
    hide EntryOk, RoleOk, FrameOk;
    assert FreeOk(s, k) && PlaceOk(s, x);
  }

  lemma AttachPlaceOk(s: State, x: Place, i: nat, f: nat, w: Word, y: Place)
    requires Ok(s) && CanAttach(s, x, i, f, w) && s.at[x] in s.mem && i < |s.mem[s.at[x]]|
    requires y in Attach(s, x, i, f, w).at
    ensures PlaceOk(Attach(s, x, i, f, w), y)
  {
    hide Present, Descriptor, Clear, Span, EntryOk, RoleOk, FreeOk, FrameOk;
    assert PlaceOk(s, x);
    if y == Child(x, i) {
      assert (ENTRIES * x.prefix + i) / ENTRIES == x.prefix;
    } else {
      assert PlaceOk(s, y);
    }
  }

  lemma AttachRoleOk(s: State, x: Place, i: nat, f: nat, w: Word, g: nat)
    requires Ok(s) && CanAttach(s, x, i, f, w) && s.at[x] in s.mem && i < |s.mem[s.at[x]]|
    requires g in Attach(s, x, i, f, w).role
    ensures RoleOk(Attach(s, x, i, f, w), g)
  {
    hide Present, Descriptor, Clear, Span, EntryOk, PlaceOk, FreeOk, FrameOk, Child;
    assert g in s.role ==> RoleOk(s, g);
  }

  lemma AttachEntryOk(s: State, x: Place, i: nat, f: nat, w: Word, y: Place, j: nat)
    requires Ok(s) && CanAttach(s, x, i, f, w) && s.at[x] in s.mem && |s.mem[s.at[x]]| == ENTRIES && s.at[x] != f
    requires y in Attach(s, x, i, f, w).at && y.Table? && j < ENTRIES
    ensures EntryOk(Attach(s, x, i, f, w), y, j)
  {
    hide PlaceOk, Present, Descriptor, Clear, Span, RoleOk, FreeOk;
    if y == Child(x, i) {
      assert FrameOk(s, f) && PlaceOk(s, x);
      NothingBelow(s, y, j);
      BelowItself(x, i, j);
      ClearAbsent(s.mem[f][j]);
    } else {
      assert EntryOk(s, y, j) && PlaceOk(s, y) && FrameOk(s, s.at[y]);
      AttachEntry(s, x, i, y, j);
    }
  }

  lemma BelowItself(x: Place, i: nat, j: nat)
    requires x.Table? && x.level < 3
    ensures Child(Child(x, i), j) != Child(x, i)
  {
  }

  lemma AttachEntry(s: State, x: Place, i: nat, y: Place, j: nat)
    requires Ok(s) && x in s.at && y in s.at && x.Table? && y.Table? && i < ENTRIES && j < ENTRIES
    ensures x != y ==> s.at[x] != s.at[y]
    ensures (x != y || i != j) ==> Child(x, i) != Child(y, j)
  {
    assert PlaceOk(s, x) && PlaceOk(s, y);
    if Child(x, i) == Child(y, j) {
      ChildInjective(x, i, y, j);
    }
  }

  /** A place that is not in use has no place in use below it. */
  lemma NothingBelow(s: State, y: Place, j: nat)
    requires Ok(s) && y !in s.at && y.Table? && j < ENTRIES && y.level <= 3
    ensures Child(y, j) !in s.at
  {
    assert (ENTRIES * y.prefix + j) / ENTRIES == y.prefix;
    assert Child(y, j) in s.at ==> PlaceOk(s, Child(y, j));
  }

  lemma DetachOk(s: State, x: Place, i: nat)
    requires Ok(s) && x in s.at && x.Table? && x.level == 3 && i < ENTRIES && Child(x, i) in s.at
    ensures s.at[x] in s.mem && |s.mem[s.at[x]]| == ENTRIES
    ensures Ok(Detach(s, x, i)) && s.at[Child(x, i)] != s.at[x]
  {
    hide Present, Descriptor, Clear, Span, EntryOk, RoleOk, FreeOk, Child, Remove;
    assert PlaceOk(s, x) && FrameOk(s, s.at[x]) && PlaceOk(s, Child(x, i));
    var s' := Detach(s, x, i);
    forall g | g in s'.mem ensures FrameOk(s', g) {
      assert FrameOk(s, g);
    }
    UserChild(x, i, x);
    forall y | y in s'.at ensures PlaceOk(s', y) {
      DetachPlaceOk(s, x, i, y);
    }
    forall y, j | y in s'.at && y.Table? && 0 <= j < ENTRIES ensures EntryOk(s', y, j) {
      DetachEntryOk(s, x, i, y, j);
    }
    forall g | g in s'.role ensures RoleOk(s', g) {
      DetachRoleOk(s, x, i, g);
    }
    forall k | 0 <= k < |s'.free| ensures FreeOk(s', k) {
      TableWriteFreeOk(s, s', x, k);
    }
  }

  lemma DetachRoleOk(s: State, x: Place, i: nat, g: nat)
    requires Ok(s) && x in s.at && x.Table? && x.level == 3 && i < ENTRIES && Child(x, i) in s.at
    requires s.at[x] in s.mem && |s.mem[s.at[x]]| == ENTRIES && g in Detach(s, x, i).role
    ensures RoleOk(Detach(s, x, i), g)
  {
    hide Child, Present, Descriptor, Clear, Span, EntryOk, FreeOk, FrameOk, Remove;
    assert PlaceOk(s, Child(x, i));
    assert g in s.role ==> RoleOk(s, g);
  }

  lemma DetachEntryOk(s: State, x: Place, i: nat, y: Place, j: nat)
    requires Ok(s) && x in s.at && x.Table? && x.level == 3 && i < ENTRIES && Child(x, i) in s.at
    requires s.at[x] in s.mem && |s.mem[s.at[x]]| == ENTRIES
    requires y in Detach(s, x, i).at && y.Table? && j < ENTRIES
    ensures EntryOk(Detach(s, x, i), y, j)
  {
    hide Span, RoleOk, FreeOk, PlaceOk, FrameOk, Present, Descriptor, Child, Remove;
    assert EntryOk(s, y, j);
    AttachEntry(s, x, i, y, j);
    UserChild(x, i, y);
    ZeroAbsent();
  }

  lemma ZeroAbsent()
    ensures !Present(Word(0, 0)) && !Descriptor(Word(0, 0)) && Clear(Word(0, 0))
  {
  }

  lemma ClearAbsent(w: Word)
    requires Clear(w)
    ensures !Present(w) && !Descriptor(w)
  {
  }

  lemma UserChild(x: Place, i: nat, y: Place)
    requires x.Table? && x.level == 3 && y.Table?
    ensures Child(x, i) == User(x.root, ENTRIES * x.prefix + i) && Child(x, i) != y
  {
  }

  lemma DetachPlaceOk(s: State, x: Place, i: nat, y: Place)
    requires Ok(s) && x in s.at && x.Table? && x.level == 3 && i < ENTRIES && Child(x, i) in s.at
    requires s.at[x] in s.mem && |s.mem[s.at[x]]| == ENTRIES
    requires y in Detach(s, x, i).at
    ensures PlaceOk(Detach(s, x, i), y)
  {
    hide Present, Descriptor, Clear, Span, EntryOk, RoleOk, FreeOk, FrameOk, Child, Remove;
    assert PlaceOk(s, y) && PlaceOk(s, Child(x, i));
    UserChild(x, i, x);
  }

  lemma FillOk(s: State, f: nat, p: Page)
    requires Ok(s) && f in s.role && |p| == ENTRIES
    requires s.role[f] == Taken || (s.role[f].At? && s.role[f].place.User?)
    ensures Ok(Fill(s, f, p))
  {
    hide Present, Descriptor, Clear, Span, Child;
    assert RoleOk(s, f);
    var s' := Fill(s, f, p);
    forall g | g in s'.mem ensures FrameOk(s', g) {
      assert FrameOk(s, g);
    }
    forall y | y in s'.at ensures PlaceOk(s', y) && (y.Table? ==> s.at[y] != f) {
      assert PlaceOk(s, y);
    }
    forall y, j | y in s'.at && y.Table? && 0 <= j < ENTRIES ensures EntryOk(s', y, j) {
      assert EntryOk(s, y, j);
    }
    forall g | g in s'.role ensures RoleOk(s', g) {
      assert RoleOk(s, g);
    }
    forall k | 0 <= k < |s'.free| ensures FreeOk(s', k) {
      assert FreeOk(s, k);
    }
  }

  // What steps do to translations and to the contents of pages

  ghost predicate SameRoots(s: State, s': State) {
    forall r :: IsRoot(s, r) ==> IsRoot(s', r)
  }

  /** A change of translation: `root` maps vpn to w (or not at all), and everything else is kept. */
  ghost predicate Remaps(s: State, s': State, root: nat, vpn: nat, w: Option<Word>) {
    && SameRoots(s, s')
    && forall r: nat, v: nat | IsRoot(s, r) && v < VPNS ::
         Translate(s', r, v) == if r == root && v == vpn then w else Translate(s, r, v)
  }

  ghost predicate SameMaps(s: State, s': State) {
    SameRoots(s, s') && forall r: nat, v: nat | IsRoot(s, r) && v < VPNS :: Translate(s', r, v) == Translate(s, r, v)
  }

  /** Pages of the same use stay where they are, and user pages keep their contents. */
  ghost predicate Kept(s: State, s': State) {
    && (forall x | x in s.at && x in s'.at && x.Table? :: s'.at[x] == s.at[x])
    && (forall x | x in s.at && x in s'.at && x.User? :: SamePage(s, s', x))
  }

  ghost predicate SamePage(s: State, s': State, x: Place)
    requires x in s.at && x in s'.at
  {
    s'.at[x] == s.at[x] && s.at[x] in s.mem && s.at[x] in s'.mem && s'.mem[s.at[x]] == s.mem[s.at[x]]
  }

  ghost function LeafEntry(s: State, root: nat, vpn: nat): Option<Word> {
    if User(root, vpn) in s.at && TableOf(root, 3, vpn) in s.at && s.at[TableOf(root, 3, vpn)] in s.mem
       && Index(3, vpn) < |s.mem[s.at[TableOf(root, 3, vpn)]]|
    then Some(s.mem[s.at[TableOf(root, 3, vpn)]][Index(3, vpn)]) else None
  }

  lemma TranslateLeaf(s: State, root: nat, vpn: nat)
    requires Ok(s) && IsRoot(s, root) && vpn < VPNS
    ensures Translate(s, root, vpn) == LeafEntry(s, root, vpn)
  {
    Translation(s, root, vpn);
  }

  lemma SameTables(s: State, s': State)
    requires Ok(s) && Ok(s') && s'.at == s.at
    requires forall x | x in s.at && x.Table? :: s.at[x] in s.mem && s.at[x] in s'.mem && s'.mem[s.at[x]] == s.mem[s.at[x]]
    ensures SameMaps(s, s')
  {
    forall r: nat, v: nat | IsRoot(s, r) && v < VPNS ensures Translate(s', r, v) == Translate(s, r, v) {
      TranslateLeaf(s, r, v);
      TranslateLeaf(s', r, v);
      assert TableOf(r, 3, v) in s.at ==> s'.mem[s.at[TableOf(r, 3, v)]] == s.mem[s.at[TableOf(r, 3, v)]];
    }
  }

  lemma TakeKeeps(s: State, junk: Page)
    requires Ok(s) && s.free != [] && |junk| == ENTRIES
    ensures SameMaps(s, Take(s, junk)) && Kept(s, Take(s, junk))
  {
    hide EntryOk, FrameOk, RoleOk;
    TakeOk(s, junk);
    assert forall x | x in s.at :: PlaceOk(s, x) && s.at[x] != s.free[0];
    SameTables(s, Take(s, junk));
  }

  lemma GiveKeeps(s: State, f: nat)
    requires Ok(s) && f in s.role && s.role[f] == Taken
    ensures f in s.mem && |s.mem[f]| == ENTRIES && SameMaps(s, Give(s, f)) && Kept(s, Give(s, f))
  {
    hide EntryOk, FreeOk, RoleOk;
    GiveOk(s, f);
    assert forall x | x in s.at :: PlaceOk(s, x) && s.at[x] != f;
    SameTables(s, Give(s, f));
  }

  lemma FillKeeps(s: State, f: nat, p: Page)
    requires Ok(s) && f in s.role && |p| == ENTRIES && s.role[f] == Taken
    ensures SameMaps(s, Fill(s, f, p)) && Kept(s, Fill(s, f, p))
  {
    hide EntryOk, FreeOk, RoleOk;
    FillOk(s, f, p);
    assert forall x | x in s.at :: PlaceOk(s, x) && s.at[x] != f;
    SameTables(s, Fill(s, f, p));
  }

  /** Which page number an entry of a last-level table stands for. */
  lemma LeafSlot(root: nat, vpn: nat, x: Place, i: nat)
    requires x.Table? && x.level == 3 && i < ENTRIES
    ensures TableOf(root, 3, vpn) == x && Index(3, vpn) == i <==> Child(x, i) == User(root, vpn)
  {
    NextTable(root, 3, vpn);
    if Child(x, i) == User(root, vpn) {
      ChildInjective(x, i, TableOf(root, 3, vpn), Index(3, vpn));
    }
  }

  lemma UserTable(s: State, r: nat, v: nat)
    requires Ok(s) && User(r, v) in s.at
    ensures TableOf(r, 3, v) in s.at && s.at[TableOf(r, 3, v)] in s.mem && Index(3, v) < |s.mem[s.at[TableOf(r, 3, v)]]|
  {
    assert PlaceOk(s, User(r, v));
    assert PlaceOk(s, TableOf(r, 3, v)) && FrameOk(s, s.at[TableOf(r, 3, v)]);
  }

  /** What a write to one entry of a table does to the entry of a page number. */
  lemma EntryAfter(s: State, x: Place, i: nat, w: Word, r: nat, v: nat)
    requires Ok(s) && x in s.at && x.Table? && i < ENTRIES && s.at[x] in s.mem && |s.mem[s.at[x]]| == ENTRIES
    requires TableOf(r, 3, v) in s.at && s.at[TableOf(r, 3, v)] in s.mem && |s.mem[s.at[TableOf(r, 3, v)]]| == ENTRIES
    ensures
      var mem' := s.mem[s.at[x] := s.mem[s.at[x]][i := w]];
      var t := s.at[TableOf(r, 3, v)];
      mem'[t][Index(3, v)] == if x.level == 3 && Child(x, i) == User(r, v) then w else s.mem[t][Index(3, v)]
  {
    hide Ok, Child, TableOf, Index;
    TableLevel(r, v);
    if x == TableOf(r, 3, v) {
      LeafSlot(r, v, x, i);
    } else {
      AttachEntry(s, x, i, TableOf(r, 3, v), 0);
      if x.level == 3 {
        LeafSlot(r, v, x, i);
      }
    }
  }

  lemma TableLevel(r: nat, v: nat)
    ensures TableOf(r, 3, v).Table? && TableOf(r, 3, v).level == 3 && TableOf(r, 3, v).root == r && Index(3, v) < ENTRIES
  {
  }

  lemma AttachLeaf(s: State, x: Place, i: nat, f: nat, w: Word, r: nat, v: nat)
    requires Ok(s) && CanAttach(s, x, i, f, w) && s.at[x] in s.mem && |s.mem[s.at[x]]| == ENTRIES && s.at[x] != f
    requires Ok(Attach(s, x, i, f, w)) && IsRoot(s, r) && v < VPNS
    ensures LeafEntry(Attach(s, x, i, f, w), r, v) == if Child(x, i) == User(r, v) then Some(w) else LeafEntry(s, r, v)
  {
    hide Ok, Span, Present, Descriptor, TableOf, Index, Child;
    var s' := Attach(s, x, i, f, w);
    var t := TableOf(r, 3, v);
    TableLevel(r, v);
    ChildKind(x, i);
    if User(r, v) in s.at {
      UserTable(s, r, v);
      UserTable(s', r, v);
      TableSize(s, x, t);
      EntryAfter(s, x, i, w, r, v);
    } else if User(r, v) in s'.at {
      UserTable(s', r, v);
      TableSize(s, x, x);
      LeafSlot(r, v, x, i);
    }
  }

  lemma ChildKind(x: Place, i: nat)
    requires x.Table?
    ensures x.level >= 3 <==> Child(x, i).User?
    ensures Child(x, i).Table? ==> Child(x, i).level == x.level + 1
  {
  }

  lemma TableSize(s: State, x: Place, t: Place)
    requires Ok(s) && x in s.at && x.Table?
    ensures t in s.at && t.Table? ==> s.at[t] in s.mem && |s.mem[s.at[t]]| == ENTRIES
    ensures x.level <= 3
  {
    assert PlaceOk(s, x);
    assert t in s.at ==> PlaceOk(s, t) && FrameOk(s, s.at[t]);
  }

  /** A write to a table does not touch a user page. */
  lemma UserPage(s: State, x: Place, y: Place)
    requires Ok(s) && x in s.at && x.Table? && y in s.at && y.User?
    ensures s.at[y] in s.mem && s.at[y] != s.at[x]
    ensures forall s': State | s'.mem.Keys == s.mem.Keys && (forall g | g in s.mem && g != s.at[x] :: s'.mem[g] == s.mem[g])
              && y in s'.at && s'.at[y] == s.at[y] :: SamePage(s, s', y)
  {
    assert PlaceOk(s, x) && PlaceOk(s, y);
  }

  lemma UserChildAt3(x: Place, i: nat)
    requires x.Table?
    ensures x.level == 3 ==> Child(x, i) == User(x.root, ENTRIES * x.prefix + i)
  {
  }

  lemma AttachKeeps(s: State, x: Place, i: nat, f: nat, w: Word)
    requires Ok(s) && CanAttach(s, x, i, f, w)
    ensures s.at[x] in s.mem && |s.mem[s.at[x]]| == ENTRIES
    ensures Kept(s, Attach(s, x, i, f, w))
    ensures x.level < 3 ==> SameMaps(s, Attach(s, x, i, f, w))
    ensures x.level == 3 ==> Remaps(s, Attach(s, x, i, f, w), x.root, ENTRIES * x.prefix + i, Some(w))
  {
    hide EntryOk, FreeOk, RoleOk, Span, Present, Descriptor, LeafEntry, FrameOk, Lookup, PlaceOk, SamePage, Child;
    AttachOk(s, x, i, f, w);
    var s' := Attach(s, x, i, f, w);
    ChildKind(x, i);
    TableSize(s, x, x);
    forall y | y in s.at && y.User? ensures SamePage(s, s', y) {
      UserPage(s, x, y);
    }
    UserChildAt3(x, i);
    forall r: nat, v: nat | IsRoot(s, r) && v < VPNS
      ensures Translate(s', r, v) == if Child(x, i) == User(r, v) then Some(w) else Translate(s, r, v)
    {
      TranslateLeaf(s, r, v);
      TranslateLeaf(s', r, v);
      AttachLeaf(s, x, i, f, w, r, v);
    }
  }

  lemma DetachLeaf(s: State, x: Place, i: nat, r: nat, v: nat)
    requires Ok(s) && x in s.at && x.Table? && x.level == 3 && i < ENTRIES && Child(x, i) in s.at
    requires s.at[x] in s.mem && |s.mem[s.at[x]]| == ENTRIES && Ok(Detach(s, x, i)) && IsRoot(s, r) && v < VPNS
    ensures LeafEntry(Detach(s, x, i), r, v) == if Child(x, i) == User(r, v) then None else LeafEntry(s, r, v)
  {
    hide Ok, Span, Present, Descriptor, TableOf, Index, Child, Remove;
    var s' := Detach(s, x, i);
    var t := TableOf(r, 3, v);
    TableLevel(r, v);
    UserChild(x, i, t);
    TableSize(s, x, t);
    if User(r, v) in s.at {
      UserTable(s, r, v);
      EntryAfter(s, x, i, Word(0, 0), r, v);
    }
  }

  lemma DetachKeeps(s: State, x: Place, i: nat)
    requires Ok(s) && x in s.at && x.Table? && x.level == 3 && i < ENTRIES && Child(x, i) in s.at
    ensures s.at[x] in s.mem && |s.mem[s.at[x]]| == ENTRIES
    ensures Kept(s, Detach(s, x, i)) && Remaps(s, Detach(s, x, i), x.root, ENTRIES * x.prefix + i, None)
  {
    hide EntryOk, FreeOk, RoleOk, Span, Present, Descriptor, LeafEntry, FrameOk, Remove, PlaceOk, SamePage, Child, Lookup;
    DetachOk(s, x, i);
    var s' := Detach(s, x, i);
    UserChild(x, i, x);
    TableSize(s, x, x);
    forall y | y in s'.at && y.User? ensures SamePage(s, s', y) {
      UserPage(s, x, y);
    }
    forall r: nat, v: nat | IsRoot(s, r) && v < VPNS
      ensures Translate(s', r, v) == if Child(x, i) == User(r, v) then None else Translate(s, r, v)
    {
      TranslateLeaf(s, r, v);
      TranslateLeaf(s', r, v);
      DetachLeaf(s, x, i, r, v);
    }
  }
}
