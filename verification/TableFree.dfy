/** vm_free of kern/vm.c, as wait calls it: with level 1 for a root, which is one too many. */
module TableFree {
  import opened Frames
  import opened PageTables
  import opened AddressCopy

  /** The table of some level above a table. */
  function Up(y: Place, level: nat): Place
    requires y.Table? && level <= y.level
    decreases y.level
  {
    if y.level == level then y else Up(Table(y.root, y.level - 1, y.prefix / ENTRIES), level)
  }

  lemma {:induction false} UpIsTable(y: Place, level: nat)
    requires y.Table? && level <= y.level
    ensures Up(y, level).Table? && Up(y, level).level == level && Up(y, level).root == y.root
    ensures level < y.level ==> Up(y, level + 1).Table? && Up(y, level) == Table(y.root, level, Up(y, level + 1).prefix / ENTRIES)
    decreases y.level
  {
    if level < y.level {
      UpIsTable(Table(y.root, y.level - 1, y.prefix / ENTRIES), level);
    }
  }

  /** Every table above a table in use is in use. */
  lemma {:induction false} UpInUse(s: State, y: Place, level: nat)
    requires Ok(s) && y in s.at && y.Table? && level <= y.level
    ensures Up(y, level) in s.at
    decreases y.level
  {
    if level < y.level {
      assert PlaceOk(s, y);
      UpInUse(s, Table(y.root, y.level - 1, y.prefix / ENTRIES), level);
    }
  }

  /** The tables that the call for table x frees: those of levels 0, 1 and 3 in its subtree. */
  ghost predicate Doomed(x: Place, y: Place) {
    x.Table? && y.Table? && y.level != 2 && x.level <= y.level && Up(y, x.level) == x
  }

  /** Those of them below the entries before i. */
  ghost predicate DoomedBefore(x: Place, i: nat, y: Place) {
    x.Table? && y.Table? && y.level != 2 && x.level < y.level && Up(y, x.level) == x && EntryOf(x, y) < i
  }

  /** The entry of x above y. */
  ghost function EntryOf(x: Place, y: Place): nat
    requires x.Table? && y.Table? && x.level < y.level
  {
    UpIsTable(y, x.level);
    Up(y, x.level + 1).prefix % ENTRIES
  }

  /** The subtrees of the entries of x are disjoint, and together with x make up its subtree. */
  lemma DoomedSplit(x: Place, i: nat, y: Place)
    requires x.Table? && x.level < 3 && i < ENTRIES
    ensures DoomedBefore(x, i + 1, y) <==> DoomedBefore(x, i, y) || Doomed(Child(x, i), y)
    ensures Doomed(Child(x, i), y) ==> !DoomedBefore(x, i, y) && y != x
    ensures !DoomedBefore(x, 0, y)
    ensures Doomed(x, y) <==> DoomedBefore(x, ENTRIES, y) || (y == x && x.level != 2)
  {
    if y.Table? && x.level < y.level {
      UpIsTable(y, x.level);
      UpIsTable(y, x.level + 1);
      var c := Up(y, x.level + 1);
      assert c.prefix == ENTRIES * (c.prefix / ENTRIES) + c.prefix % ENTRIES;
    }
  }

  /** The call for table x leaves y alone, which is a table that vm_free frees. */
  ghost predicate Spared(x: Place, y: Place) { y.Table? && y.level != 2 && y != x && !Doomed(x, y) }

  ghost function DoomedSet(s: State, x: Place): set<Place> { set y | y in s.at && Doomed(x, y) }

  ghost function DoomedSoFar(s: State, x: Place, i: nat): set<Place> { set y | y in s.at && DoomedBefore(x, i, y) }

  /** The address space at a root is gone, and the pages at the places in D are free again. */
  ghost predicate Freeing(s0: State, s: State, root: nat, D: set<Place>) {
    && s.at == AbandonedAt(s0.at, root) && s.role.Keys == s0.role.Keys
    && (forall f | f in s0.role :: s.role[f] == RoleAfter(s0.role[f], root, D))
    && (forall y | y in s0.at && !(y.root == root && y in D) ::
          s0.at[y] in s0.mem && s0.at[y] in s.mem && s.mem[s0.at[y]] == s0.mem[s0.at[y]])
  }

  ghost function RoleAfter(r: Role, root: nat, D: set<Place>): Role {
    if r.At? && r.place.root == root then if r.place in D then Free else Taken else r
  }

  lemma FreeingNone(s0: State, root: nat)
    requires Ok(s0)
    ensures Freeing(s0, Abandoned(s0, root), root, {})
  {
    hide EntryOk, FreeOk, RoleOk, AbandonedAt, AbandonedRole;
    forall y | y in s0.at ensures s0.at[y] in s0.mem {
      assert PlaceOk(s0, y);
    }
  }

  lemma FreeingRole(s0: State, root: nat, D: set<Place>, y: Place, f: nat)
    requires Ok(s0) && y in s0.at && f in s0.role && f != s0.at[y]
    ensures RoleAfter(s0.role[f], root, D + {y}) == RoleAfter(s0.role[f], root, D)
  {
    assert RoleOk(s0, f);
  }

  lemma Apart(s0: State, y: Place, z: Place)
    requires Ok(s0) && y in s0.at && z in s0.at && y != z
    ensures s0.at[y] != s0.at[z]
  {
    assert PlaceOk(s0, y) && PlaceOk(s0, z);
  }

  lemma TakenPlace(s0: State, s: State, root: nat, D: set<Place>, y: Place)
    requires Ok(s0) && Freeing(s0, s, root, D) && y in s0.at && y.root == root && y !in D
    ensures s0.at[y] in s.role && s.role[s0.at[y]] == Taken && s0.at[y] in s.mem && s0.at[y] in s0.mem
    ensures s.mem[s0.at[y]] == s0.mem[s0.at[y]]
    ensures s0.role[s0.at[y]] == At(y)
  {
    assert PlaceOk(s0, y);
  }

  lemma FreeingOne(s0: State, s: State, root: nat, D: set<Place>, y: Place)
    requires Ok(s0) && Freeing(s0, s, root, D) && y in s0.at && y.root == root && y !in D
    requires s0.at[y] in s.mem && |s.mem[s0.at[y]]| == ENTRIES
    ensures Freeing(s0, Give(s, s0.at[y]), root, D + {y})
  {
    hide Ok, RoleAfter;
    var s' := Give(s, s0.at[y]);
    TakenPlace(s0, s, root, D, y);
    forall f | f in s0.role ensures s'.role[f] == RoleAfter(s0.role[f], root, D + {y}) {
      if f != s0.at[y] {
        FreeingRole(s0, root, D, y, f);
      } else {
        assert RoleAfter(At(y), root, D + {y}) == Free by {
          RoleFreed(y, root, D);
        }
      }
    }
    forall z | z in s0.at && !(z.root == root && z in D + {y})
      ensures s0.at[z] in s0.mem && s0.at[z] in s'.mem && s'.mem[s0.at[z]] == s0.mem[s0.at[z]]
    {
      Apart(s0, y, z);
    }
  }

  lemma RoleFreed(y: Place, root: nat, D: set<Place>)
    requires y.root == root
    ensures RoleAfter(At(y), root, D + {y}) == Free
  {
  }

  /** Frees what hangs on a table, and the table itself unless level is 3.  x is the place of the table:
      its level is one less.  Not ok is a panic. */
  method VmFree(vm: Vm, t: nat, level: nat, ghost x: Place, ghost s0: State, ghost D: set<Place>) returns (ok: bool)
    requires vm.Valid() && Ok(s0) && 1 <= level <= 3 && x.Table? && x.level == level - 1 && x in s0.at && t == s0.at[x]
    requires Freeing(s0, vm.S(), x.root, D) && forall y | y in D :: Spared(x, y)
    modifies vm
    ensures ok && vm.Valid() && Freeing(s0, vm.S(), x.root, D + DoomedSet(s0, x))
    decreases 3 - level
  {
    hide Ok, Freeing, Doomed, DoomedBefore, Present, Descriptor, Child, Spared;
    ok := true;
    NoneDoomed(s0, x);
    assert D + {} == D;
    for i := 0 to ENTRIES
      invariant ok && vm.Valid() && Freeing(s0, vm.S(), x.root, D + DoomedSoFar(s0, x, i))
    {
      ghost var E := D + DoomedSoFar(s0, x, i);
      StillThere(s0, vm.S(), x, D, i);
      TableEntry(s0, x, i);
      EntryFree(s0, x, i, D);
      if Present(vm.mem[t][i]) {
        var f := vm.mem[t][i].addr;
        if level == 3 {
          TakenPlace(s0, vm.S(), x.root, E, Child(x, i));
          InMemory(vm.S(), f);
          FreeingOne(s0, vm.S(), x.root, E, Child(x, i));
          ok := vm.Kfree(f);
        } else {
          ok := VmFree(vm, f, level + 1, Child(x, i), s0, E);
        }
      }
    }
    AllDoomed(s0, x, D);
    if level < 3 {
      ghost var E := D + DoomedSoFar(s0, x, ENTRIES);
      NotYet(s0, x, D, ENTRIES);
      TakenPlace(s0, vm.S(), x.root, E, x);
      InMemory(vm.S(), t);
      FreeingOne(s0, vm.S(), x.root, E, x);
      ok := vm.Kfree(t);
    }
  }

  lemma NoneDoomed(s0: State, x: Place)
    ensures DoomedSoFar(s0, x, 0) == {}
  {
  }

  lemma NotYet(s0: State, x: Place, D: set<Place>, i: nat)
    requires forall y | y in D :: Spared(x, y)
    ensures x !in D + DoomedSoFar(s0, x, i)
  {
  }

  /** The table that is being freed is as it was. */
  lemma StillThere(s0: State, s: State, x: Place, D: set<Place>, i: nat)
    requires Freeing(s0, s, x.root, D + DoomedSoFar(s0, x, i)) && x in s0.at && forall y | y in D :: Spared(x, y)
    ensures s0.at[x] in s.mem && s0.at[x] in s0.mem && s.mem[s0.at[x]] == s0.mem[s0.at[x]]
  {
    NotYet(s0, x, D, i);
  }

  /** What one entry adds: the subtree of its table, all of it still to be freed; nothing if there is none. */
  lemma EntryFree(s0: State, x: Place, i: nat, D: set<Place>)
    requires Ok(s0) && x.Table? && x.level < 3 && i < ENTRIES && x in s0.at && forall y | y in D :: Spared(x, y)
    ensures
      var c, E, E' := Child(x, i), D + DoomedSoFar(s0, x, i), D + DoomedSoFar(s0, x, i + 1);
      && c.Table? && c.level == x.level + 1 && c.root == x.root
      && (c !in s0.at ==> E' == E)
      && (c in s0.at && x.level < 2 ==> E' == E + DoomedSet(s0, c) && c !in E && forall y | y in E :: Spared(c, y))
      && (c in s0.at && x.level == 2 ==> E' == E + {c} && c !in E)
  {
    hide Ok;
    var c, E, E' := Child(x, i), D + DoomedSoFar(s0, x, i), D + DoomedSoFar(s0, x, i + 1);
    forall y ensures DoomedBefore(x, i + 1, y) <==> DoomedBefore(x, i, y) || Doomed(c, y) {
      DoomedSplit(x, i, y);
    }
    forall y | y in s0.at && Doomed(c, y) ensures c in s0.at {
      UpInUse(s0, y, c.level);
    }
    SelfOrBelow(x, i, c);
    forall y | y in E ensures Spared(c, y) {
      DoomedSplit(x, i, y);
      BelowDoomed(x, i, y);
    }
    assert E' == E + DoomedSet(s0, c);
    if x.level == 2 && c in s0.at {
      LastLevel(s0, c);
    }
  }

  lemma LastLevel(s0: State, c: Place)
    requires Ok(s0) && c in s0.at && c.Table? && c.level == 3
    ensures DoomedSet(s0, c) == {c}
  {
    forall y | y in s0.at && Doomed(c, y) ensures y == c {
      assert PlaceOk(s0, y);
    }
  }

  lemma BelowDoomed(x: Place, i: nat, y: Place)
    requires x.Table? && x.level < 3 && i < ENTRIES
    ensures Doomed(Child(x, i), y) ==> Doomed(x, y)
  {
    DoomedSplit(x, i, y);
    DoomedSplit(x, ENTRIES - 1, y);
    if Doomed(Child(x, i), y) {
      UpIsTable(y, x.level);
    }
  }

  lemma SelfOrBelow(x: Place, i: nat, c: Place)
    requires x.Table? && x.level < 3 && i < ENTRIES && c == Child(x, i)
    ensures Up(c, x.level) == x && !DoomedBefore(x, i, c) && (Doomed(x, c) <==> c.level != 2)
  {
    assert (ENTRIES * x.prefix + i) / ENTRIES == x.prefix && (ENTRIES * x.prefix + i) % ENTRIES == i;
  }

  lemma AllDoomed(s0: State, x: Place, D: set<Place>)
    requires x.Table? && x.level < 3 && x in s0.at
    ensures D + DoomedSet(s0, x) == if x.level == 2 then D + DoomedSoFar(s0, x, ENTRIES) else D + DoomedSoFar(s0, x, ENTRIES) + {x}
  {
    forall y ensures Doomed(x, y) <==> DoomedBefore(x, ENTRIES, y) || (y == x && x.level != 2) {
      DoomedSplit(x, 0, y);
    }
  }

  // What wait gets from vm_free(pgdir, 1)

  /** Of an address space, the tables of levels 0, 1 and 3 are free again; the tables of level 2 and the
      user pages stay taken.  Every other address space is as it was. */
  ghost predicate HalfFreed(s: State, s': State, root: nat) {
    && s'.at == AbandonedAt(s.at, root) && s'.role.Keys == s.role.Keys
    && (forall f | f in s.role && s.role[f].At? && s.role[f].place.root == root ::
          s'.role[f] == if s.role[f].place.Table? && s.role[f].place.level != 2 then Free else Taken)
    && (forall f | f in s.role && !(s.role[f].At? && s.role[f].place.root == root) :: s'.role[f] == s.role[f])
    && (forall r: nat, v: nat | IsRoot(s, r) && r != root && v < VPNS :: Translate(s', r, v) == Translate(s, r, v))
    && (forall y | y in s.at && y.root != root :: s.at[y] in s.mem && s.at[y] in s'.mem && s'.mem[s.at[y]] == s.mem[s.at[y]])
  }

  /** No page is freed twice: kfree takes pages that are taken only. */
  method FreeRoot(vm: Vm, pgdir: nat) returns (ok: bool)
    requires vm.Valid() && IsRoot(vm.S(), pgdir)
    modifies vm
    ensures ok && vm.Valid() && HalfFreed(old(vm.S()), vm.S(), pgdir)
  {
    hide Ok, Freeing, HalfFreed, DoomedSet;
    ghost var s, x := vm.S(), Table(pgdir, 0, 0);
    RootTable(s, pgdir, 0);
    AbandonedOk(s, pgdir);
    FreeingNone(s, pgdir);
    vm.at := AbandonedAt(vm.at, pgdir);
    vm.role := AbandonedRole(vm.role, pgdir);
    assert vm.S() == Abandoned(s, pgdir);
    ok := VmFree(vm, pgdir, 1, x, s, {});
    assert {} + DoomedSet(s, x) == DoomedSet(s, x);
    AllFreed(s, vm.S(), pgdir);
  }

  lemma AllFreed(s: State, s': State, root: nat)
    requires Ok(s) && Ok(s') && IsRoot(s, root) && Freeing(s, s', root, DoomedSet(s, Table(root, 0, 0)))
    ensures HalfFreed(s, s', root)
  {
    hide Ok, Lookup, AbandonedAt, Up;
    forall f | f in s.role && s.role[f].At? && s.role[f].place.root == root
      ensures s.role[f].place in DoomedSet(s, Table(root, 0, 0)) <==> s.role[f].place.Table? && s.role[f].place.level != 2
    {
      AllBelowRoot(s, root, f);
    }
    forall r: nat, v: nat | IsRoot(s, r) && r != root && v < VPNS ensures Translate(s', r, v) == Translate(s, r, v) {
      OtherRoot(s, s', root, r, v);
    }
  }

  lemma AllBelowRoot(s: State, root: nat, f: nat)
    requires Ok(s) && f in s.role && s.role[f].At? && s.role[f].place.root == root
    ensures
      var y := s.role[f].place;
      y in s.at && (y in DoomedSet(s, Table(root, 0, 0)) <==> y.Table? && y.level != 2)
  {
    assert RoleOk(s, f);
    var y := s.role[f].place;
    if y.Table? {
      UpIsTable(y, 0);
      UpInUse(s, y, 0);
      assert PlaceOk(s, Up(y, 0));
    }
  }

  lemma OtherRoot(s: State, s': State, root: nat, r: nat, v: nat)
    requires Ok(s) && Ok(s') && Freeing(s, s', root, DoomedSet(s, Table(root, 0, 0))) && IsRoot(s, r) && r != root && v < VPNS
    ensures Translate(s', r, v) == Translate(s, r, v)
  {
    hide Ok, Lookup, DoomedSet, Index;
    TranslateLeaf(s, r, v);
    TranslateLeaf(s', r, v);
  }
}
