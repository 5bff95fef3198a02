/** What the names in the root directory of a built image lead to, for the path lookup of kern/fs.c. */
module RootDirectory {
  import opened Layout
  import opened Blocks
  import opened Files
  import opened Directories
  import opened Names
  import opened Mkfs
  import opened Options

  function NameOf(names: seq<seq<byte>>, k: nat): seq<byte>
    requires k < |names| + 2
  {
    if k == 0 then [46] else if k == 1 then [46, 46] else Key(names[k - 2])
  }

  ghost predicate AllZero(z: seq<byte>) { forall i | 0 <= i < |z| :: z[i] == 0 }

  lemma {:induction false} RootEntry(names: seq<seq<byte>>, n: nat, z: seq<byte>, k: nat)
    requires n <= |names| && k < n + 2
    ensures
      var f := RootText(names, n) + z;
      k < Count(f) && Entry(f, k) == if k == 0 then Dirent([46], 1) else if k == 1 then Dirent([46, 46], 1) else Dirent(names[k - 2], k)
    decreases n
  {
    hide Dirent;
    RootLength(names, n);
    var f := RootText(names, n) + z;
    if n > 0 {
      var d := Dirent(names[n - 1], n + 1);
      RootLength(names, n - 1);
      assert f == RootText(names, n - 1) + (d + z);
      if k < n + 1 {
        RootEntry(names, n - 1, d + z, k);
      }
    }
  }

  lemma EntryParts(f: seq<byte>, k: nat, name: seq<byte>, inum: nat)
    requires k < Count(f) && Entry(f, k) == Dirent(name, inum) && inum < 0x1_0000
    ensures InumAt(f, k) == inum && Key(NameAt(f, k)) == Key(name)
  {
    hide Padded, Key, Entry;
    TwoBytes(inum);
    assert Dirent(name, inum)[2..] == Padded(name);
  }

  lemma ZeroEntry(names: seq<seq<byte>>, z: seq<byte>, k: nat)
    requires AllZero(z) && |names| + 2 <= k < Count(RootText(names, |names|) + z)
    ensures InumAt(RootText(names, |names|) + z, k) == 0
  {
    RootLength(names, |names|);
    ZeroTail(RootText(names, |names|), z, k);
  }

  lemma ZeroTail(a: seq<byte>, z: seq<byte>, k: nat)
    requires AllZero(z) && |a| <= DIRENT * k && k < Count(a + z)
    ensures InumAt(a + z, k) == 0
  {
    assert (a + z)[DIRENT * k] == z[DIRENT * k - |a|] && (a + z)[DIRENT * k + 1] == z[DIRENT * k + 1 - |a|];
  }

  lemma Dots()
    ensures Key([46]) == [46] && Key([46, 46]) == [46, 46]
  {
    CutIs([46], 14, [46]);
    CutIs([46, 46], 14, [46, 46]);
  }

  /** The entries that match a name, and what they say. */
  lemma RootMatches(names: seq<seq<byte>>, z: seq<byte>, k: nat, key: seq<byte>)
    requires AllZero(z) && |names| + 2 < 0x1_0000 && k < Count(RootText(names, |names|) + z)
    ensures
      var f := RootText(names, |names|) + z;
      && (Matches(f, k, key) <==> k < |names| + 2 && key == NameOf(names, k))
      && (k < |names| + 2 ==> InumAt(f, k) == if k == 0 then 1 else k)
  {
    hide RootText, Dirent, Key, InumAt, NameAt;
    if k < |names| + 2 {
      RootEntry(names, |names|, z, k);
      Dots();
      EntryParts(RootText(names, |names|) + z, k, if k == 0 then [46] else if k == 1 then [46, 46] else names[k - 2], if k == 0 then 1 else k);
    } else {
      ZeroEntry(names, z, k);
    }
  }

  /** A name is bound by its first entry. */
  lemma RootLookup(names: seq<seq<byte>>, z: seq<byte>, k: nat)
    requires AllZero(z) && |names| + 2 < 0x1_0000 && k < |names| + 2 && forall j | 0 <= j < k :: NameOf(names, j) != NameOf(names, k)
    ensures Lookup(RootText(names, |names|) + z, NameOf(names, k)) == Some(if k == 0 then 1 else k)
  {
    hide RootText, InumAt, NameOf, Matches;
    var f, key := RootText(names, |names|) + z, NameOf(names, k);
    RootEntry(names, |names|, z, k);
    RootMatches(names, z, k, key);
    forall j | 0 <= j < k ensures !Matches(f, j, key) {
      RootMatches(names, z, j, key);
    }
    FindIs(f, key, k);
  }

  lemma RootMisses(names: seq<seq<byte>>, z: seq<byte>, key: seq<byte>)
    requires AllZero(z) && |names| + 2 < 0x1_0000 && forall j | 0 <= j < |names| + 2 :: NameOf(names, j) != key
    ensures Lookup(RootText(names, |names|) + z, key) == None
  {
    hide RootText, InumAt, NameOf, Matches;
    var f := RootText(names, |names|) + z;
    forall j | 0 <= j < Count(f) ensures !Matches(f, j, key) {
      RootMatches(names, z, j, key);
    }
    FindNone(f, key);
  }

  /** From the root, . and .. lead back to it, the key of a file leads to its inode, and nothing else leads
      anywhere; of two files with the same key the first one counts. */
  ghost predicate RootLeads(s: State, names: seq<seq<byte>>) {
    && Walk(s, 1, [[46]], false) == Some(1) && Walk(s, 1, [[46, 46]], false) == Some(1)
    && (forall k | 0 <= k < |names| && Key(names[k]) != [46] && Key(names[k]) != [46, 46] && NewKey(names, k) ::
          Walk(s, 1, [Key(names[k])], false) == Some(k + 2))
    && (forall key | key != [46] && key != [46, 46] && (forall k | 0 <= k < |names| :: Key(names[k]) != key) ::
          Walk(s, 1, [key], false) == None)
  }

  ghost predicate NewKey(names: seq<seq<byte>>, k: nat)
    requires k < |names|
  {
    forall j | 0 <= j < k :: Key(names[j]) != Key(names[k])
  }

  lemma WalkRoot(s: State, f: seq<byte>, key: seq<byte>)
    requires IsFile(s, 1, f) && s.inode[1].typ == 1
    ensures Walk(s, 1, [key], false) == Lookup(f, key)
  {
    hide File, Lookup;
    assert [key][1..] == [];
  }

  lemma NamesLead(s: State, names: seq<seq<byte>>, z: seq<byte>)
    requires AllZero(z) && |names| + 2 < 0x1_0000 && IsFile(s, 1, RootText(names, |names|) + z) && s.inode[1].typ == 1
    ensures RootLeads(s, names)
  {
    hide RootText, IsFile, Walk, Lookup, Key;
    var f := RootText(names, |names|) + z;
    WalkRoot(s, f, [46]);
    WalkRoot(s, f, [46, 46]);
    RootLookup(names, z, 0);
    RootLookup(names, z, 1);
    forall k | 0 <= k < |names| && Key(names[k]) != [46] && Key(names[k]) != [46, 46] && NewKey(names, k)
      ensures Walk(s, 1, [Key(names[k])], false) == Some(k + 2)
    {
      WalkRoot(s, f, Key(names[k]));
      assert forall j | 0 <= j < k + 2 :: NameOf(names, j) != NameOf(names, k + 2);
      RootLookup(names, z, k + 2);
    }
    forall key | key != [46] && key != [46, 46] && (forall k | 0 <= k < |names| :: Key(names[k]) != key)
      ensures Walk(s, 1, [key], false) == None
    {
      WalkRoot(s, f, key);
      RootMisses(names, z, key);
    }
  }

  /** The image meets what path lookup asks for. */
  lemma ReadyForNames(s: State, names: seq<seq<byte>>, z: seq<byte>)
    requires AllZero(z) && Kinds(s, |names|) && |s.inode| <= 0x1_0000 && IsFile(s, 1, RootText(names, |names|) + z) && |z| % 16 == 0
    requires forall j: nat | j < |s.inode| :: IsInode(s, j)
    ensures DirsOk(s) && AllLinked(s)
  {
    hide RootText, File, InumAt, Key;
    var f := RootText(names, |names|) + z;
    RootLength(names, |names|);
    forall k | 0 <= k < Count(f) && InumAt(f, k) != 0 ensures IsInode(s, InumAt(f, k)) && s.inode[InumAt(f, k)].typ != 0 {
      if k < |names| + 2 {
        RootMatches(names, z, k, []);
      } else {
        ZeroEntry(names, z, k);
      }
    }
    forall n: nat | IsInode(s, n) ensures DirOk(s, n) {
    }
  }
}
