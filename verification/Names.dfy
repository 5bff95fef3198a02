/** The inode cache and path lookup of kern/fs.c: iget to iput, and namex.  Inode numbers on the one
    device stand for the pair of device and number.  Not ok is a panic of the C code. */
module Names {
  import opened Layout
  import opened Blocks
  import opened Files
  import opened Updates
  import opened Directories
  import opened Options
  import opened Paths

  const NINODE: nat := 50
  const ROOTINO: nat := 1

  /** A directory holds whole entries, and they lead to inodes in use. */
  ghost predicate DirOk(s: State, n: nat)
    requires IsInode(s, n)
  {
    s.inode[n].typ == T_DIR && s.inode[n].size <= MAXFILE * BSIZE ==>
      && s.inode[n].size % DIRENT == 0
      && forall k | 0 <= k < Count(File(s, n)) && InumAt(File(s, n), k) != 0 ::
           IsInode(s, InumAt(File(s, n), k)) && s.inode[InumAt(File(s, n), k)].typ != 0
  }

  ghost predicate DirsOk(s: State) { forall n: nat | IsInode(s, n) :: DirOk(s, n) }

  /** No inode in use is without links. */
  ghost predicate AllLinked(s: State) { forall n: nat | IsInode(s, n) && s.inode[n].typ != 0 :: s.inode[n].nlink > 0 }

  ghost predicate IsDir(s: State, n: nat) { IsInode(s, n) && s.inode[n].typ == T_DIR && s.inode[n].size <= MAXFILE * BSIZE }

  /** Lookup by lookup along the components; for the parent it stops before the last one. */
  ghost function Walk(s: State, n: nat, names: seq<seq<byte>>, parent: bool): Option<nat>
    decreases |names|
  {
    if names == [] then if parent then None else Some(n)
    else if !IsDir(s, n) then None
    else if parent && |names| == 1 then Some(n)
    else match Lookup(File(s, n), names[0])
         case None => None
         case Some(m) => Walk(s, m, names[1..], parent)
  }

  /** The parent of a path is where the path without its last component leads, if that is a directory. */
  lemma {:induction false} ParentIsPrefix(s: State, n: nat, names: seq<seq<byte>>)
    requires names != []
    ensures
      var p := Walk(s, n, names[..|names| - 1], false);
      Walk(s, n, names, true) == if p.Some? && IsDir(s, p.value) then p else None
    decreases |names|
  {
    if |names| > 1 && IsDir(s, n) {
      match Lookup(File(s, n), names[0])
      case None =>
      case Some(m) =>
        ParentIsPrefix(s, m, names[1..]);
        assert names[..|names| - 1][1..] == names[1..][..|names| - 2];
    }
  }

  class Icache {
    const fs: Fs
    var ref: seq<nat>
    var inum: seq<nat>
    var valid: seq<bool>
    var locked: seq<bool>      // by the current process

    constructor (fs: Fs)
      requires fs.Valid()
      ensures Valid() && this.fs == fs && ref == seq(NINODE, _ => 0) && locked == seq(NINODE, _ => false)
    {
      this.fs := fs;
      ref, inum, valid, locked := seq(NINODE, _ => 0), seq(NINODE, _ => 0), seq(NINODE, _ => false), seq(NINODE, _ => false);
    }

    ghost predicate SlotOk(i: nat)
      reads this, fs
      requires i < |ref| == |inum| == |valid| == |locked|
    {
      && (ref[i] > 0 ==> IsInode(fs.S(), inum[i]) && (valid[i] ==> fs.inode[inum[i]].typ != 0))
      && (locked[i] ==> ref[i] > 0 && valid[i])
    }

    /** Entries in use are for different inodes. */
    ghost predicate Valid()
      reads this, fs
    {
      && fs.Valid() && |ref| == |inum| == |valid| == |locked| == NINODE
      && (forall i | 0 <= i < NINODE :: SlotOk(i))
      && (forall i, j | 0 <= i < j < NINODE && ref[i] > 0 && ref[j] > 0 :: inum[i] != inum[j])
    }

    /** Entries that were in use are for the same inodes as before. */
    twostate predicate SlotsKept()
      reads this
    {
      |inum| == |old(inum)| == |old(ref)| && forall i | 0 <= i < |old(ref)| && old(ref)[i] > 0 :: inum[i] == old(inum)[i]
    }

    /** The entry for an inode, with one more reference.  Not ok: all entries are in use for others. */
    method Iget(n: nat) returns (ok: bool, ip: nat)
      requires Valid() && IsInode(fs.S(), n)
      modifies this`ref, this`inum, this`valid
      ensures Valid() && SlotsKept()
      ensures ok ==> ip < NINODE && inum[ip] == n && ref == old(ref)[ip := old(ref)[ip] + 1]
      ensures ok ==> (old(ref)[ip] > 0 <==> exists i :: 0 <= i < NINODE && old(ref)[i] > 0 && old(inum)[i] == n)
      ensures !ok ==> ref == old(ref) && forall i | 0 <= i < NINODE :: ref[i] > 0 && inum[i] != n
    {
      var empty: nat := NINODE;
      ip := 0;
      while ip < NINODE
        invariant ref == old(ref) && inum == old(inum) && valid == old(valid)
        invariant ip <= NINODE && empty <= NINODE && (empty < NINODE ==> empty < ip && ref[empty] == 0)
        invariant empty == NINODE ==> forall i | 0 <= i < ip :: ref[i] > 0
        invariant forall i | 0 <= i < ip && ref[i] > 0 :: inum[i] != n
      {
        if ref[ip] > 0 && inum[ip] == n {
          ref := ref[ip := ref[ip] + 1];
          assert forall i | 0 <= i < NINODE && i != ip :: old(SlotOk(i)) ==> SlotOk(i);
          return true, ip;
        }
        if empty == NINODE && ref[ip] == 0 {
          empty := ip;
        }
        ip := ip + 1;
      }
      if empty == NINODE {
        return false, 0;
      }
      ip := empty;
      assert !locked[ip] by {
        assert SlotOk(ip);
      }
      inum := inum[ip := n];
      ref := ref[ip := 1];
      valid := valid[ip := false];
      assert forall i | 0 <= i < NINODE && i != ip :: old(SlotOk(i)) ==> SlotOk(i);
      return true, ip;
    }

    method Idup(ip: nat)
      requires Valid() && ip < NINODE && ref[ip] > 0
      modifies this`ref
      ensures Valid() && ref == old(ref)[ip := old(ref)[ip] + 1]
    {
      ref := ref[ip := ref[ip] + 1];
      assert forall i | 0 <= i < NINODE :: old(SlotOk(i)) ==> SlotOk(i);
    }

    /** Not ok is the panic on an inode without type. */
    method Ilock(ip: nat) returns (ok: bool)
      requires Valid() && ip < NINODE && ref[ip] > 0 && !locked[ip]
      modifies this`valid, this`locked
      ensures IsInode(fs.S(), inum[ip]) && (ok <==> fs.inode[inum[ip]].typ != 0)
      ensures ok ==> Valid() && locked == old(locked)[ip := true] && valid == old(valid)[ip := true]
    {
      assert SlotOk(ip);
      locked := locked[ip := true];
      if !valid[ip] {
        valid := valid[ip := true];
        if fs.dinode[inum[ip]].typ == 0 {
          return false;
        }
      }
      assert forall i | 0 <= i < NINODE :: old(SlotOk(i)) ==> SlotOk(i);
      ok := true;
    }

    method Iunlock(ip: nat)
      requires Valid() && ip < NINODE && locked[ip]
      modifies this`locked
      ensures Valid() && locked == old(locked)[ip := false]
    {
      locked := locked[ip := false];
      assert forall i | 0 <= i < NINODE :: old(SlotOk(i)) ==> SlotOk(i);
    }
  
    /** itrunc, and an inode without a type. */
    method FreeInode(n: nat)
      requires fs.Valid() && IsInode(fs.S(), n)
      modifies fs`bitmap, fs`inode, fs`dinode, fs`updates, fs`logged, fs`owner
      ensures fs.Valid() && SameOthers(old(fs.S()), fs.S(), n)
      ensures fs.inode == old(fs.inode)[n := Emptied(old(fs.inode)[n]).(typ := 0)]
    {
      hide SameOthers, Owned, AllHoleFree, Leads;
      ghost var s := fs.S();
      fs.Itrunc(n);
      AllInodes(s, fs.g);
      AllInodes(fs.S(), fs.g);
      RelabelOk(fs.S(), fs.g, s, n, fs.inode[n].(typ := 0));
      fs.inode := fs.inode[n := fs.inode[n].(typ := 0)];
      fs.Iupdate(n);
    }

    /** Drops a reference.  The last one to an inode without links frees it. */
    method Iput(ip: nat)
      requires Valid() && ip < NINODE && ref[ip] > 0 && !locked[ip]
      modifies this`ref, this`valid, fs`bitmap, fs`inode, fs`dinode, fs`updates, fs`logged, fs`owner
      ensures Valid() && ref == old(ref)[ip := old(ref)[ip] - 1] && IsInode(old(fs.S()), inum[ip])
      ensures
        var n, free := inum[ip], old(valid[ip] && fs.inode[inum[ip]].nlink == 0 && ref[ip] == 1);
        if free then valid == old(valid)[ip := false] && SameOthers(old(fs.S()), fs.S(), n)
                     && fs.inode == old(fs.inode)[n := Emptied(old(fs.inode)[n]).(typ := 0)]
        else valid == old(valid) && fs.S() == old(fs.S()) && fs.logged == old(fs.logged)
    {
      hide SameOthers, Owned, AllHoleFree, Leads;
      assert SlotOk(ip);
      AllInodes(fs.S(), fs.g);
      if valid[ip] && fs.inode[inum[ip]].nlink == 0 {
        var r := ref[ip];
        if r == 1 {
          FreeInode(inum[ip]);
          valid := valid[ip := false];
        }
      }
      ref := ref[ip := ref[ip] - 1];
      assert forall i | 0 <= i < NINODE :: old(SlotOk(i)) ==> SlotOk(i);
    }

    method Iunlockput(ip: nat)
      requires Valid() && ip < NINODE && locked[ip] && ref[ip] > 0 && IsInode(fs.S(), inum[ip]) && fs.inode[inum[ip]].nlink > 0
      modifies this`ref, this`valid, this`locked, fs`bitmap, fs`inode, fs`dinode, fs`updates, fs`logged, fs`owner
      ensures Valid() && ref == old(ref)[ip := old(ref)[ip] - 1] && locked == old(locked)[ip := false]
      ensures fs.S() == old(fs.S())
    {
      hide SameOthers, AllHoleFree, Owned, Leads;
      Iunlock(ip);
      Iput(ip);
    }

    /** No locks held, and references as in r. */
    ghost predicate Unlocked(r: seq<nat>)
      reads this
    {
      ref == r && |locked| == NINODE && forall i | 0 <= i < NINODE :: !locked[i]
    }

    ghost predicate Walking(s: State, r0: seq<nat>, ip: nat)
      reads this, fs
    {
      && Valid() && fs.S() == s && ip < NINODE && |r0| == NINODE && Unlocked(r0[ip := r0[ip] + 1])
      && IsInode(s, inum[ip]) && s.inode[inum[ip]].typ != 0
    }

    /** One component: from a directory to the inode of a name in it, giving up the directory.  next
        is none if there is no such name, or if the entry is no directory. */
    method NamexStep(ip: nat, name: seq<byte>, ghost s: State, ghost r0: seq<nat>) returns (ok: bool, found: bool, next: nat)
      requires Walking(s, r0, ip) && DirsOk(s) && AllLinked(s) && Key(name) == name
      modifies this, fs
      ensures Valid() && SlotsKept() && fs.S() == s
      ensures ok && !found ==> Unlocked(r0) && (!IsDir(s, old(inum[ip])) || Lookup(File(s, old(inum[ip])), name) == None)
      ensures ok && found ==>
                && Walking(s, r0, next) && IsDir(s, old(inum[ip]))
                && Lookup(File(s, old(inum[ip])), name) == Some(inum[next])
      ensures !ok ==> forall i | 0 <= i < NINODE :: ref[i] > 0
    {
      hide DirOk, Owned, AllHoleFree, SlotOk, File, Lookup, DirsOk, Key, Leads;
      var n := inum[ip];
      ok := Ilock(ip);
      if fs.inode[n].typ != T_DIR {
        Iunlockput(ip);
        return true, false, 0;
      }
      var m, k;
      WholeEntries(s, fs.g, n);
      ok, m, k := Dirlookup(fs, n, name);
      if m == 0 {
        Iunlockput(ip);
        return ok, false, 0;
      }
      EntryInode(s, n, name, m);
      ok, next := Iget(m);
      if !ok {
        return false, false, 0;
      }
      Iunlockput(ip);
      found := true;
    }

    /** The last component of a path whose parent is wanted: the check that it is a directory. */
    method ParentHere(ip: nat, ghost s: State, ghost r0: seq<nat>) returns (ok: bool, found: bool)
      requires Walking(s, r0, ip) && AllLinked(s) && DirsOk(s)
      modifies this`ref, this`valid, this`locked, fs`bitmap, fs`inode, fs`dinode, fs`updates, fs`logged, fs`owner
      ensures ok && Valid() && fs.S() == s && (found <==> IsDir(s, inum[ip]))
      ensures Unlocked(if found then r0[ip := r0[ip] + 1] else r0)
    {
      hide DirOk, Owned, AllHoleFree, SlotOk, DirsOk, Leads;
      ok := Ilock(ip);
      if fs.inode[inum[ip]].typ != T_DIR {
        Iunlockput(ip);
        return true, false;
      }
      WholeEntries(s, fs.g, inum[ip]);
      Iunlock(ip);
      found := true;
    }

    /** iput of an inode in use that is not locked. */
    method Drop(ip: nat, ghost s: State, ghost r0: seq<nat>)
      requires Walking(s, r0, ip) && AllLinked(s)
      modifies this`ref, this`valid, fs`bitmap, fs`inode, fs`dinode, fs`updates, fs`logged, fs`owner
      ensures Valid() && fs.S() == s && Unlocked(r0)
    {
      hide Owned, AllHoleFree, SlotOk, Leads;
      Iput(ip);
    }

    /** The inode of a path name, or of its parent directory, in which case name is the last component.  A
        path that begins with a slash starts at the root, any other at cwd.
        Every lock is released, and the only reference left is one to the result.  Not ok: all entries
        of the inode cache were in use. */
    method Namex(path: seq<byte>, nameiparent: bool, cwd: nat) returns (ok: bool, found: bool, ip: nat, name: seq<byte>)
      requires Valid() && Unlocked(ref) && 0 !in path
      requires DirsOk(fs.S()) && AllLinked(fs.S()) && IsInode(fs.S(), ROOTINO) && fs.inode[ROOTINO].typ != 0
      requires cwd < NINODE && ref[cwd] > 0 && IsInode(fs.S(), inum[cwd]) && fs.inode[inum[cwd]].typ != 0
      modifies this, fs
      ensures Valid() && fs.S() == old(fs.S()) && SlotsKept()
      ensures ok && found ==> ip < NINODE && Unlocked(old(ref)[ip := old(ref)[ip] + 1])
      ensures ok && !found ==> Unlocked(old(ref))
      ensures ok && path != [] && path[0] == 47 ==>
                Walk(old(fs.S()), 1, Elements(path), nameiparent) == (if found then Some(inum[ip]) else None)
      ensures ok && (path == [] || path[0] != 47) ==>
                Walk(old(fs.S()), old(inum[cwd]), Elements(path), nameiparent) == (if found then Some(inum[ip]) else None)
      ensures ok && found && nameiparent ==> Elements(path) != [] && name == Elements(path)[|Elements(path)| - 1]
      ensures !ok ==> forall i | 0 <= i < NINODE :: ref[i] > 0
    {
      hide DirOk, Owned, AllHoleFree, SlotOk, DirsOk, AllLinked, Walk, Elements, Lookup, Find, Key, Leads, IsInode, File;
      ghost var s, r0, all := fs.S(), ref, Elements(path);
      ghost var start := if path != [] && path[0] == SLASH then ROOTINO else inum[cwd];
      name := [];
      if path != [] && path[0] == SLASH {
        ok, ip := Iget(ROOTINO);
        if !ok {
          return false, false, 0, [];
        }
      } else {
        ip := cwd;
        Idup(cwd);
      }
      var p := 0;
      assert path[0..] == path;
      ghost var taken: seq<seq<byte>> := [];
      assert [] + Elements(path[p..]) == all;
      while true
        invariant p <= |path| && Walking(s, r0, ip) && SlotsKept()
        invariant all == taken + Elements(path[p..])
        invariant Walk(s, start, all, nameiparent) == Walk(s, inum[ip], Elements(path[p..]), nameiparent)
        decreases |path| - p
      {
        ghost var rest := Elements(path[p..]);
        var more;
        more, p, name := Skipelem(path, p);
        if !more {
          break;
        }
        ghost var n := inum[ip];
        WalkStep(s, n, rest, nameiparent);
        taken := taken + [name];
        assert all == taken + Elements(path[p..]);
        if nameiparent && p == |path| {
          ok, found := ParentHere(ip, s, r0);
          return ok, found, ip, name;
        }
        ok, found, ip := NamexStep(ip, name, s, r0);
        if !ok || !found {
          return ok, false, 0, [];
        }
      }
      WalkEnd(s, inum[ip], nameiparent);
      if nameiparent {
        Drop(ip, s, r0);
        return true, false, 0, [];
      }
      return true, true, ip, name;
    }
  }

  lemma WalkStep(s: State, n: nat, names: seq<seq<byte>>, parent: bool)
    requires names != []
    ensures
      Walk(s, n, names, parent) ==
      if !IsDir(s, n) then None else if parent && |names| == 1 then Some(n)
      else if Lookup(File(s, n), names[0]).None? then None
      else Walk(s, Lookup(File(s, n), names[0]).value, names[1..], parent)
  {
  }

  lemma WalkEnd(s: State, n: nat, parent: bool)
    ensures Walk(s, n, [], parent) == if parent then None else Some(n)
  {
  }

  lemma WholeEntries(s: State, g: Geometry, n: nat)
    requires DirsOk(s) && AllHoleFree(s) && IsInode(s, n) && s.inode[n].typ == T_DIR
    ensures IsDir(s, n) && |File(s, n)| % DIRENT == 0
  {
    hide File, DataAddr;
    assert DirOk(s, n) && HoleFree(s, n);
  }

  /** A name in a directory leads to an inode in use. */
  lemma EntryInode(s: State, n: nat, key: seq<byte>, m: nat)
    requires DirsOk(s) && IsDir(s, n) && Lookup(File(s, n), key) == Some(m)
    ensures IsInode(s, m) && s.inode[m].typ != 0
  {
    hide File, Entry, Find, InumAt;
    assert DirOk(s, n);
    var k := Find(File(s, n), key, 0);
    assert Matches(File(s, n), k, key);
  }

  lemma AllInodes(s: State, g: Geometry)
    requires Owned(s, g)
    ensures forall j: nat | j < |s.inode| :: IsInode(s, j)
  {
  }
}
