/** Directories: dirlookup and dirlink of kern/fs.c over the contents of a file.  Not ok is a panic
    of the C code. */
module Directories {
  import opened Layout
  import opened Blocks
  import opened Files
  import opened Updates
  import opened Options

  const DIRSIZ: nat := 14
  const DIRENT: nat := 16          // sizeof(struct dirent)

  /** A name as strncmp and strncpy see it: up to a NUL or n bytes. */
  function Cut(s: seq<byte>, n: nat): (r: seq<byte>)
    ensures |r| <= n && |r| <= |s| && r == s[..|r|] && (|r| == n || |r| == |s| || s[|r|] == 0) && 0 !in r
  {
    if n == 0 || s == [] || s[0] == 0 then [] else [s[0]] + Cut(s[1..], n - 1)
  }

  function Key(s: seq<byte>): seq<byte> { Cut(s, DIRSIZ) }

  /** There is only one such prefix. */
  lemma {:induction false} CutIs(s: seq<byte>, n: nat, r: seq<byte>)
    requires |r| <= n && |r| <= |s| && r == s[..|r|] && (|r| == n || |r| == |s| || s[|r|] == 0) && 0 !in r
    ensures Cut(s, n) == r
    decreases n
  {
    if r != [] {
      assert s[0] == r[0] && s[1..][..|r| - 1] == r[1..];
      CutIs(s[1..], n - 1, r[1..]);
    }
  }

  function CharAt(s: seq<byte>, i: nat): byte { if i < |s| then s[i] else 0 }

  /** Two names agree in their first 14 bytes or, as C strings, before that. */
  ghost predicate SameName(s: seq<byte>, t: seq<byte>) {
    forall i | 0 <= i < 14 && CharAt(s, i) != CharAt(t, i) :: exists j :: 0 <= j < i && CharAt(s, j) == CharAt(t, j) == 0
  }

  /** namecmp(s, t) == 0 */
  method Namecmp(s: seq<byte>, t: seq<byte>) returns (same: bool)
    ensures same <==> Key(s) == Key(t)
    ensures same <==> SameName(s, t)
  {
    var i := 0;
    while i < DIRSIZ && CharAt(s, i) == CharAt(t, i) && CharAt(s, i) != 0
      invariant i <= DIRSIZ && i <= |s| && i <= |t| && s[..i] == t[..i] && 0 !in s[..i]
      decreases DIRSIZ - i
    {
      i := i + 1;
    }
    same := i == DIRSIZ || CharAt(s, i) == CharAt(t, i);
    assert forall j | 0 <= j < i :: CharAt(s, j) == s[..i][j] && CharAt(t, j) == t[..i][j];
    if same {
      CutIs(s, DIRSIZ, s[..i]);
      CutIs(t, DIRSIZ, t[..i]);
    } else {
      Differ(s, t, i);
    }
  }

  lemma Differ(s: seq<byte>, t: seq<byte>, i: nat)
    requires i < DIRSIZ && i <= |s| && i <= |t| && s[..i] == t[..i] && 0 !in s[..i] && CharAt(s, i) != CharAt(t, i)
    ensures Key(s) != Key(t)
  {
    var a, b := Key(s), Key(t);
    assert forall j | 0 <= j < i :: s[j] == s[..i][j] && s[j] != 0;
    assert forall j | 0 <= j < i :: t[j] == t[..i][j] && t[j] != 0;
    assert |a| >= i && |b| >= i;
    assert CharAt(s, i) != 0 ==> |a| > i && a[i] == s[i];
    assert CharAt(t, i) != 0 ==> |b| > i && b[i] == t[i];
  }

  // Entries

  function Count(f: seq<byte>): nat { |f| / DIRENT }

  function Entry(f: seq<byte>, k: nat): (d: seq<byte>)
    requires k < Count(f)
    ensures |d| == DIRENT
  {
    f[DIRENT * k..DIRENT * k + DIRENT]
  }

  function InumAt(f: seq<byte>, k: nat): nat
    requires k < Count(f)
  {
    (Entry(f, k)[0] as int) + 0x100 * (Entry(f, k)[1] as int)
  }

  function NameAt(f: seq<byte>, k: nat): seq<byte>
    requires k < Count(f)
  {
    Entry(f, k)[2..]
  }

  predicate Matches(f: seq<byte>, k: nat, key: seq<byte>)
    requires k < Count(f)
  {
    InumAt(f, k) != 0 && Key(NameAt(f, k)) == key
  }

  /** The first entry from k on with a name, or the number of entries. */
  function Find(f: seq<byte>, key: seq<byte>, k: nat): (r: nat)
    requires k <= Count(f)
    ensures k <= r <= Count(f) && (r < Count(f) ==> Matches(f, r, key))
    ensures forall j | k <= j < r :: !Matches(f, j, key)
    decreases Count(f) - k
  {
    if k == Count(f) || Matches(f, k, key) then k else Find(f, key, k + 1)
  }

  /** A directory as a map from names to inode numbers. */
  function Lookup(f: seq<byte>, key: seq<byte>): Option<nat> {
    var k := Find(f, key, 0);
    if k < Count(f) then Some(InumAt(f, k)) else None
  }

  /** No name stands in two entries. */
  ghost predicate Unique(f: seq<byte>) {
    forall i, j | 0 <= i < j < Count(f) && InumAt(f, i) != 0 && InumAt(f, j) != 0 :: Key(NameAt(f, i)) != Key(NameAt(f, j))
  }

  function FirstEmpty(f: seq<byte>, k: nat): (r: nat)
    requires k <= Count(f)
    ensures k <= r <= Count(f) && (r < Count(f) ==> InumAt(f, r) == 0) && forall j | k <= j < r :: InumAt(f, j) != 0
    decreases Count(f) - k
  {
    if k == Count(f) || InumAt(f, k) == 0 then k else FirstEmpty(f, k + 1)
  }

  /** strncpy of a name: padded with NULs. */
  function Padded(s: seq<byte>): (r: seq<byte>)
    ensures |r| == DIRSIZ && Key(r) == Key(s)
  {
    var c := Key(s);
    var r := c + seq(DIRSIZ - |c|, _ => 0 as byte);
    CutIs(r, DIRSIZ, c);
    r
  }

  /** A struct dirent; inum is cut to 16 bits. */
  function Dirent(name: seq<byte>, inum: nat): (r: seq<byte>)
    ensures |r| == DIRENT
    ensures (r[0] as int) + 0x100 * (r[1] as int) == inum % 0x1_0000
  {
    TwoBytes(inum);
    [(inum % 0x100) as byte, (inum / 0x100 % 0x100) as byte] + Padded(name)
  }

  /** What dirlink writes. */
  function Linked(f: seq<byte>, name: seq<byte>, inum: nat): seq<byte> {
    Splice(f, DIRENT * FirstEmpty(f, 0), Dirent(name, inum))
  }

  lemma SpliceEntry(f: seq<byte>, e: nat, d: seq<byte>, k: nat)
    requires |f| % DIRENT == 0 && e <= Count(f) && |d| == DIRENT && k < Count(Splice(f, DIRENT * e, d))
    ensures k == e ==> Entry(Splice(f, DIRENT * e, d), k) == d
    ensures k != e ==> k < Count(f) && Entry(Splice(f, DIRENT * e, d), k) == Entry(f, k)
  {
    var f' := Splice(f, DIRENT * e, d);
    if k == e {
      assert forall i | 0 <= i < DIRENT :: Entry(f', k)[i] == d[i];
    } else {
      assert k < Count(f);
      assert forall i | 0 <= i < DIRENT :: Entry(f', k)[i] == f'[DIRENT * k + i] && Entry(f, k)[i] == f[DIRENT * k + i];
    }
  }

  lemma SpliceCount(f: seq<byte>, e: nat, d: seq<byte>)
    requires |f| % DIRENT == 0 && e <= Count(f) && |d| == DIRENT
    ensures Count(Splice(f, DIRENT * e, d)) == (if e == Count(f) then Count(f) + 1 else Count(f))
    ensures |Splice(f, DIRENT * e, d)| % DIRENT == 0
  {
    assert e == Count(f) ==> DIRENT * e == |f|;
  }

  lemma TwoBytes(n: nat)
    ensures n % 0x100 + 0x100 * (n / 0x100 % 0x100) == n % 0x1_0000
  {
    var q, r := n / 0x1_0000, n % 0x1_0000;
    assert n == 0x100 * (0x100 * q + r / 0x100) + r % 0x100;
    assert n / 0x100 == 0x100 * q + r / 0x100;
  }

  lemma LinkedEntries(f: seq<byte>, name: seq<byte>, inum: nat, k: nat)
    requires |f| % DIRENT == 0 && k < Count(Linked(f, name, inum))
    ensures
      var f', e := Linked(f, name, inum), FirstEmpty(f, 0);
      if k == e then InumAt(f', k) == inum % 0x1_0000 && NameAt(f', k) == Padded(name)
      else k < Count(f) && InumAt(f', k) == InumAt(f, k) && NameAt(f', k) == NameAt(f, k)
  {
    hide Padded, FirstEmpty, Cut, Splice;
    SpliceEntry(f, FirstEmpty(f, 0), Dirent(name, inum), k);
    TwoBytes(inum);
    assert Dirent(name, inum)[2..] == Padded(name);
  }

  lemma LinkedCount(f: seq<byte>, name: seq<byte>, inum: nat)
    requires |f| % DIRENT == 0
    ensures
      var n, e := Count(Linked(f, name, inum)), FirstEmpty(f, 0);
      |Linked(f, name, inum)| % DIRENT == 0 && e < n && Count(f) <= n && (e < Count(f) ==> InumAt(f, e) == 0)
  {
    SpliceCount(f, FirstEmpty(f, 0), Dirent(name, inum));
  }

  /** dirlink of a new name adds exactly its binding, unless the inode number is 0 modulo 2^16: then
      it adds none.  Names stay unique. */
  lemma LinkBinds(f: seq<byte>, name: seq<byte>, inum: nat, key: seq<byte>)
    requires |f| % DIRENT == 0 && Lookup(f, Key(name)) == None
    ensures
      Lookup(Linked(f, name, inum), key) ==
      if inum % 0x1_0000 != 0 && key == Key(name) then Some(inum % 0x1_0000) else Lookup(f, key)
  {
    hide Linked, Padded, NameAt, InumAt, FirstEmpty, Cut;
    var f', e := Linked(f, name, inum), FirstEmpty(f, 0);
    LinkedCount(f, name, inum);
    forall k | 0 <= k < Count(f')
      ensures Matches(f', k, key) <==> if k == e then inum % 0x1_0000 != 0 && key == Key(name) else k < Count(f) && Matches(f, k, key)
    {
      LinkedEntries(f, name, inum, k);
    }
    assert forall k | 0 <= k < Count(f) :: !Matches(f, k, Key(name));
    EmptyNoMatch(f, key);
    assert forall k | 0 <= k < Count(f) && k != e :: Matches(f', k, key) <==> Matches(f, k, key);
    var r := Find(f', key, 0);
    if r == Count(f') {
      FindNone(f, key);
      assert !Matches(f', e, key);
    } else {
      LinkedEntries(f, name, inum, r);
      if r != e {
        FindIs(f, key, r);
      }
      assert Lookup(f', key) == Some(InumAt(f', r));
    }
  }

  lemma EmptyNoMatch(f: seq<byte>, key: seq<byte>)
    ensures FirstEmpty(f, 0) < Count(f) ==> !Matches(f, FirstEmpty(f, 0), key)
  {
  }

  lemma LinkUnique(f: seq<byte>, name: seq<byte>, inum: nat)
    requires |f| % DIRENT == 0 && Lookup(f, Key(name)) == None && Unique(f)
    ensures Unique(Linked(f, name, inum)) && |Linked(f, name, inum)| % DIRENT == 0
  {
    hide Padded, NameAt, InumAt, FirstEmpty, Cut;
    var f', e := Linked(f, name, inum), FirstEmpty(f, 0);
    LinkedCount(f, name, inum);
    forall i, j | 0 <= i < j < Count(f') && InumAt(f', i) != 0 && InumAt(f', j) != 0
      ensures Key(NameAt(f', i)) != Key(NameAt(f', j))
    {
      LinkedEntries(f, name, inum, i);
      LinkedEntries(f, name, inum, j);
      assert i != e ==> !Matches(f, i, Key(name));
      assert j != e ==> !Matches(f, j, Key(name));
    }
  }

  // dirlookup and dirlink

  /** One struct dirent of a directory. */
  method ReadEntry(fs: Fs, dp: nat, k: nat) returns (ok: bool, inum: nat, name: seq<byte>)
    requires fs.Valid() && IsInode(fs.S(), dp) && fs.inode[dp].typ == T_DIR && DIRENT * k < fs.inode[dp].size
    modifies fs`bitmap, fs`block, fs`inode, fs`updates, fs`logged, fs`owner
    ensures fs.Valid() && fs.S() == old(fs.S()) && fs.updates == old(fs.updates) && fs.logged == old(fs.logged) && fs.inode[dp].size <= MAXFILE * BSIZE
    ensures
      var f := File(fs.S(), dp);
      && (ok <==> k < Count(f))
      && (ok ==> inum == InumAt(f, k) && name == NameAt(f, k))
  {
    hide Owned;
    assert HoleFree(fs.S(), dp);
    var r, de := fs.Readi(dp, DIRENT * k, DIRENT);
    if r != DIRENT {
      return false, 0, [];
    }
    EntrySlice(File(fs.S(), dp), k, de);
    return true, (de[0] as int) + 0x100 * (de[1] as int), de[2..];
  }

  lemma EntrySlice(f: seq<byte>, k: nat, de: seq<byte>)
    requires DIRENT * k <= |f| && |de| == DIRENT && de == f[DIRENT * k..Min(DIRENT * k + DIRENT, |f|)]
    ensures k < Count(f) && de == Entry(f, k)
  {
  }

  /** The inode number that a name is bound to and the number of its entry; 0 for none.  The C
      function gets the inode too.  Not ok is a panic: no directory, or a partial entry at its end. */
  method Dirlookup(fs: Fs, dp: nat, name: seq<byte>) returns (ok: bool, inum: nat, k: nat)
    requires fs.Valid() && IsInode(fs.S(), dp)
    modifies fs`bitmap, fs`block, fs`inode, fs`updates, fs`logged, fs`owner
    ensures fs.Valid() && fs.S() == old(fs.S()) && fs.updates == old(fs.updates) && fs.logged == old(fs.logged) && fs.inode[dp].size <= MAXFILE * BSIZE
    ensures
      var f := File(fs.S(), dp);
      && (ok ==> fs.inode[dp].typ == T_DIR
                 && if inum == 0 then Lookup(f, Key(name)) == None
                    else k == Find(f, Key(name), 0) && Lookup(f, Key(name)) == Some(inum))
      && (ok <==> fs.inode[dp].typ == T_DIR && (Lookup(f, Key(name)) != None || |f| % DIRENT == 0))
  {
    hide Owned, File, Find, Entry;
    assert HoleFree(fs.S(), dp);
    if fs.inode[dp].typ != T_DIR {
      return false, 0, 0;
    }
    ghost var f := File(fs.S(), dp);
    k := 0;
    while DIRENT * k < fs.inode[dp].size
      invariant k <= Count(f)
      invariant fs.Valid() && fs.S() == old(fs.S()) && fs.updates == old(fs.updates) && fs.logged == old(fs.logged)
      invariant forall j | 0 <= j < k && j < Count(f) :: !Matches(f, j, Key(name))
      decreases fs.inode[dp].size - DIRENT * k
    {
      var n;
      ok, inum, n := ReadEntry(fs, dp, k);
      if !ok {
        FindNone(f, Key(name));
        return false, 0, 0;
      }
      if inum != 0 {
        var same := Namecmp(name, n);
        if same {
          FindIs(f, Key(name), k);
          return true, inum, k;
        }
      }
      k := k + 1;
    }
    FindNone(f, Key(name));
    return true, 0, 0;
  }

  lemma FindIs(f: seq<byte>, key: seq<byte>, k: nat)
    requires k < Count(f) && Matches(f, k, key) && forall j | 0 <= j < k :: !Matches(f, j, key)
    ensures Find(f, key, 0) == k && Lookup(f, key) == Some(InumAt(f, k))
  {
  }

  lemma FindNone(f: seq<byte>, key: seq<byte>)
    requires forall j | 0 <= j < Count(f) :: !Matches(f, j, key)
    ensures Lookup(f, key) == None
  {
  }

  /** An entry at an offset stays within the largest size, and the blocks that it takes are free. */
  ghost predicate HasRoom(s: State, g: Geometry, dp: nat, off: nat)
    requires IsInode(s, dp)
  {
    off + DIRENT <= MAXFILE * BSIZE && Lacking(s, dp, off, DIRENT) <= Spare(s, g)
  }

  /** Adds an entry: in the first empty one, or behind the last.  Not ok is a panic: no directory, a partial
      entry at its end, or no room. */
  method Dirlink(fs: Fs, dp: nat, name: seq<byte>, inum: nat) returns (ok: bool, r: int)
    requires fs.Valid() && IsInode(fs.S(), dp)
    modifies fs`bitmap, fs`block, fs`inode, fs`dinode, fs`updates, fs`logged, fs`owner
    ensures ok ==> fs.Valid() && old(fs.inode)[dp].size <= MAXFILE * BSIZE
    ensures ok ==>
              var f := File(old(fs.S()), dp);
              if Lookup(f, Key(name)) != None then r == -1 && fs.S() == old(fs.S())
              else r == 0 && WroteFile(old(fs.S()), fs.S(), dp, DIRENT * FirstEmpty(f, 0), Dirent(name, inum))
                   && File(fs.S(), dp) == Linked(f, name, inum)
    ensures !ok ==> Owned(fs.S(), fs.g)
    ensures !ok && old(fs.inode)[dp].typ == T_DIR && old(fs.inode)[dp].size % DIRENT == 0 ==>
              || (forall b | 0 <= b < fs.g.size :: Bit(fs.bitmap, b))
              || old(fs.inode)[dp].size + DIRENT > MAXFILE * BSIZE
    ensures old(fs.inode)[dp].size <= MAXFILE * BSIZE
    ensures var f := File(old(fs.S()), dp);
            ok <==> old(fs.inode)[dp].typ == T_DIR
                    && (Lookup(f, Key(name)) != None || (|f| % DIRENT == 0 && HasRoom(old(fs.S()), fs.g, dp, DIRENT * FirstEmpty(f, 0))))
    ensures ok ==> |fs.logged - old(fs.logged)| <= 5
  {
    hide Owned, File, Find, Entry, Bit, WroteFile, FirstEmpty, Dirent, Lacking, Spare, TakesBlocks, Leads;
    assert HoleFree(fs.S(), dp);
    ghost var f := File(fs.S(), dp);
    var found, k;
    ok, found, k := Dirlookup(fs, dp, name);
    if !ok {
      return false, -1;
    }
    if found != 0 {
      return true, -1;
    }
    k := 0;
    while DIRENT * k < fs.inode[dp].size
      invariant k <= Count(f) && fs.Valid() && fs.S() == old(fs.S()) && fs.logged == old(fs.logged)
      invariant forall j | 0 <= j < k :: InumAt(f, j) != 0
      decreases fs.inode[dp].size - DIRENT * k
    {
      var i, n;
      ok, i, n := ReadEntry(fs, dp, k);
      if !ok {
        return false, -1;
      }
      if i == 0 {
        break;
      }
      k := k + 1;
    }
    EmptyIs(f, k);
    ghost var t;
    ok, r, t := fs.Writei(dp, Dirent(name, inum), DIRENT * k);
    if ok {
      if r != DIRENT {
        return false, r;
      }
      WroteLinked(old(fs.S()), fs.S(), dp, name, inum);
      LinkLogs(fs.g, t, old(fs.logged), fs.logged, k);
      r := 0;
    }
  }

  /** An entry lies within one block: that block, the indirect block, the inode block and two of the free map. */
  lemma LinkLogs(g: Geometry, touched: set<nat>, was: set<nat>, logged: set<nat>, k: nat)
    requires Bounded(g, touched, DIRENT * k, DIRENT) && logged <= was + touched
    ensures |logged - was| <= 5
  {
    assert BlockSpan(DIRENT * k, DIRENT) == 1;
    assert touched == (logged - was) + (touched - (logged - was));
  }

  lemma EmptyIs(f: seq<byte>, k: nat)
    requires k <= Count(f) && (forall j | 0 <= j < k :: InumAt(f, j) != 0) && (k == Count(f) || InumAt(f, k) == 0)
    ensures FirstEmpty(f, 0) == k && DIRENT * k <= |f|
  {
  }

  lemma WroteLinked(s: State, s': State, dp: nat, name: seq<byte>, inum: nat)
    requires IsInode(s, dp) && s.inode[dp].size <= MAXFILE * BSIZE
    requires WroteFile(s, s', dp, DIRENT * FirstEmpty(File(s, dp), 0), Dirent(name, inum))
    ensures s'.inode[dp].size <= MAXFILE * BSIZE && File(s', dp) == Linked(File(s, dp), name, inum)
  {
    hide File, FirstEmpty, Dirent;
  }
}
