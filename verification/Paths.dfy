/** Path names: skipelem of kern/fs.c.  A path is its bytes without the NUL. */
module Paths {
  import opened Layout
  import opened Directories

  const SLASH: byte := 47

  /** The stretches between slashes. */
  function Fields(path: seq<byte>): (r: seq<seq<byte>>)
    ensures |r| > 0
  {
    if path == [] then [[]]
    else if path[0] == SLASH then [[]] + Fields(path[1..])
    else [[path[0]] + Fields(path[1..])[0]] + Fields(path[1..])[1..]
  }

  /** The non-empty ones, cut to the length of a directory entry's name. */
  function Kept(fields: seq<seq<byte>>): (r: seq<seq<byte>>)
    ensures |r| <= |fields|
  {
    if fields == [] then []
    else (if fields[0] == [] then [] else [Short(fields[0])]) + Kept(fields[1..])
  }

  function Short(w: seq<byte>): seq<byte> { if |w| >= DIRSIZ then w[..DIRSIZ] else w }

  /** The components of a path name. */
  function Elements(path: seq<byte>): seq<seq<byte>> { Kept(Fields(path)) }

  lemma SlashFirst(path: seq<byte>)
    requires path != [] && path[0] == 47
    ensures Elements(path) == Elements(path[1..])
  {
    assert Fields(path)[0] == [] && Fields(path)[1..] == Fields(path[1..]);
  }

  lemma {:induction false} FirstField(path: seq<byte>, n: nat)
    requires n <= |path| && (forall i | 0 <= i < n :: path[i] != SLASH) && (n == |path| || path[n] == SLASH)
    ensures Fields(path)[0] == path[..n] && Fields(path)[1..] == Fields(path[n..])[1..] && Fields(path[n..])[0] == []
    decreases n
  {
    if n > 0 {
      FirstField(path[1..], n - 1);
      assert path[1..][n - 1..] == path[n..] && path[..n] == [path[0]] + path[1..][..n - 1];
    } else {
      assert path[0..] == path;
    }
  }

  /** Up to the next slash goes the first component, of which 14 bytes count. */
  lemma WordFirst(path: seq<byte>, n: nat)
    requires 0 < n <= |path| && (forall i | 0 <= i < n :: path[i] != 47) && (n == |path| || path[n] == 47)
    ensures Elements(path) == [if n <= 14 then path[..n] else path[..14]] + Elements(path[n..])
  {
    FirstField(path, n);
    var f, g := Fields(path), Fields(path[n..]);
    assert Kept(g) == Kept(g[1..]);
    assert n >= 14 ==> path[..n][..14] == path[..14];
  }

  /** while (*path == '/') path++ */
  method SkipSlashes(path: seq<byte>, p: nat) returns (q: nat)
    requires p <= |path|
    ensures p <= q <= |path| && Elements(path[q..]) == Elements(path[p..]) && (q < |path| ==> path[q] != SLASH)
  {
    hide Elements;
    q := p;
    while q < |path| && path[q] == SLASH
      invariant p <= q <= |path| && Elements(path[q..]) == Elements(path[p..])
    {
      SlashFirst(path[q..]);
      assert path[q..][1..] == path[q + 1..];
      q := q + 1;
    }
  }

  /** Takes the next component off a path, and the slashes around it; not found if there is none. */
  method Skipelem(path: seq<byte>, p: nat) returns (found: bool, next: nat, name: seq<byte>)
    requires p <= |path| && 0 !in path
    ensures !found ==> Elements(path[p..]) == []
    ensures found ==> p < next <= |path| && Elements(path[p..]) == [name] + Elements(path[next..])
    ensures found ==> (next == |path| <==> Elements(path[next..]) == []) && Key(name) == name
  {
    hide Elements, Key;
    var s := SkipSlashes(path, p);
    if s == |path| {
      NoElements(path[s..]);
      return false, s, [];
    }
    var q := s;
    while q < |path| && path[q] != SLASH
      invariant s <= q <= |path| && forall i | s <= i < q :: path[i] != SLASH
    {
      q := q + 1;
    }
    var len := q - s;
    if len >= DIRSIZ {
      name := path[s..s + DIRSIZ];
    } else {
      name := path[s..q];
    }
    ElementAt(path, s, q, name);
    next := SkipSlashes(path, q);
    if next < |path| {
      MoreElements(path[next..]);
    } else {
      NoElements(path[next..]);
    }
    found := true;
  }

  lemma NoElements(path: seq<byte>)
    requires path == []
    ensures Elements(path) == []
  {
  }

  lemma ElementAt(path: seq<byte>, s: nat, q: nat, name: seq<byte>)
    requires s < q <= |path| && (forall i | s <= i < q :: path[i] != SLASH) && (q == |path| || path[q] == SLASH) && 0 !in path
    requires name == if q - s >= DIRSIZ then path[s..s + DIRSIZ] else path[s..q]
    ensures Elements(path[s..]) == [name] + Elements(path[q..]) && Key(name) == name
  {
    hide Elements, Cut;
    assert path[s..][..q - s] == path[s..q] && path[s..][q - s..] == path[q..];
    assert q - s >= DIRSIZ ==> path[s..][..DIRSIZ] == path[s..s + DIRSIZ];
    WordFirst(path[s..], q - s);
    assert forall i | 0 <= i < |name| :: name[i] == path[s + i];
    CutIs(name, DIRSIZ, name);
  }

  lemma MoreElements(path: seq<byte>)
    requires path != [] && path[0] != SLASH
    ensures Elements(path) != []
  {
    assert Fields(path)[0] != [];
  }
}
