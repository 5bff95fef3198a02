/** A concrete address space in which uvm_dealloc of kern/vm.c leaves a page mapped. */
module DeallocGap {
  import opened Frames
  import opened Options
  import opened PageTables
  import opened Uvm
  import opened AddressCopy

  /** Taken pages, all clear, and nothing else. */
  ghost function Blank(n: nat): (s: State) {
    State(map f: nat | 0 < f <= n * PGSIZE && f % PGSIZE == 0 :: ZeroPage(), map[],
          map f: nat | 0 < f <= n * PGSIZE && f % PGSIZE == 0 :: Taken, [])
  }

  lemma BlankOk(n: nat)
    requires n * PGSIZE < PHYSTOP
    ensures Ok(Blank(n))
  {
  }

  /** One more level: a clear page below an entry. */
  lemma Hang(s: State, x: Place, i: nat, f: nat) returns (s': State)
    requires Ok(s) && x in s.at && x.Table? && i < ENTRIES && Child(x, i) !in s.at
    requires f in s.role && s.role[f] == Taken && f in s.mem && s.mem[f] == ZeroPage()
    ensures Ok(s') && s'.at == s.at[Child(x, i) := f] && s'.role == s.role[f := At(Child(x, i))]
    ensures forall g | g in s.mem && g != s.at[x] :: g in s'.mem && s'.mem[g] == s.mem[g]
  {
    hide Ok, Present, Descriptor, Clear;
    ZeroAbsent();
    TableWord(f);
    TableEntry(s, x, i);
    AttachOk(s, x, i, f, Word(f, PTE_P | PTE_TABLE));
    s' := Attach(s, x, i, f, Word(f, PTE_P | PTE_TABLE));
  }

  /** A root and four more clear pages. */
  lemma EmptySpace() returns (s: State)
    ensures Ok(s) && s.at == map[Table(4096, 0, 0) := 4096]
    ensures forall f | f in {8192, 12288, 16384, 20480} :: f in s.role && s.role[f] == Taken && f in s.mem && s.mem[f] == ZeroPage()
  {
    hide Ok, Clear;
    BlankOk(5);
    ZeroAbsent();
    RootedOk(Blank(5), 4096);
    s := Rooted(Blank(5), 4096);
  }

  /** The tables for pages 512 to 1023, and page 512. */
  lemma PageAlone() returns (s: State)
    ensures Ok(s) && s.at.Keys == {Table(4096, 0, 0), Table(4096, 1, 0), Table(4096, 2, 0), Table(4096, 3, 1), User(4096, 512)}
  {
    hide Ok;
    s := EmptySpace();
    s := Hang(s, Table(4096, 0, 0), 0, 8192);
    s := Hang(s, Table(4096, 1, 0), 0, 12288);
    s := Hang(s, Table(4096, 2, 0), 1, 16384);
    s := Hang(s, Table(4096, 3, 1), 0, 20480);
  }

  /** Shrinking the address space with page 512 alone to nothing skips that page, since the table
      for pages 0 to 511 is missing. */
  lemma PageLeftMapped() returns (s: State, root: nat)
    ensures Ok(s) && IsRoot(s, root) && Translate(s, root, 512) != None
    ensures forall s' | Shrunk(s, s', root, 0, 513) :: Translate(s', root, 512) == Translate(s, root, 512)
  {
    hide Ok, Lookup;
    root := 4096;
    s := PageAlone();
    Translation(s, root, 512);
    assert TableOf(root, 3, 511) == Table(root, 3, 0);
    assert Skipped(s, root, 0, 512);
  }
}
