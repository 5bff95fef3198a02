/** What the operations of kern/fs.c pass to log_write: updates of single blocks. */
module Updates {
  import opened Layout
  import opened Blocks

  function BitBlock(g: Geometry, b: nat): nat { b / BPB + g.bmapstart }

  function InodeBlock(g: Geometry, inum: nat): nat { inum / IPB + g.inodestart }

  /** The file system as its blocks say it is: free map, inodes, and the blocks themselves. */
  datatype Volume = Volume(bitmap: seq<bv8>, inode: seq<Inode>, block: seq<Block>)

  /** What was changed in a buffer before log_write: a byte of the free map, an inode, or all of it. */
  datatype Update = SetByte(i: nat, x: bv8) | SetInode(inum: nat, n: Inode) | SetBlock(b: nat, data: Block)

  /** The block of the buffer. */
  function BlockOf(g: Geometry, u: Update): nat {
    match u
    case SetByte(i, _) => i / BSIZE + g.bmapstart
    case SetInode(inum, _) => InodeBlock(g, inum)
    case SetBlock(b, _) => b
  }

  ghost function BlocksOf(g: Geometry, us: seq<Update>): set<nat> { set u | u in us :: BlockOf(g, u) }

  /** An inode that struct dinode can hold. */
  predicate Storable(n: Inode) {
    |n.addrs| == NDIRECT + 1 && n.size < 0x1_0000_0000 && forall k | 0 <= k <= NDIRECT :: n.addrs[k] < 0x1_0000_0000
  }

  predicate Applies(g: Geometry, v: Volume, u: Update) {
    match u
    case SetByte(i, _) => i < |v.bitmap|
    case SetInode(inum, n) => inum < |v.inode| && Storable(n)
    case SetBlock(b, _) => g.nmeta <= b < |v.block|
  }

  function After(v: Volume, u: Update): (v': Volume)
    ensures |v'.bitmap| == |v.bitmap| && |v'.inode| == |v.inode| && |v'.block| == |v.block|
  {
    match u
    case SetByte(i, x) => if i < |v.bitmap| then v.(bitmap := v.bitmap[i := x]) else v
    case SetInode(inum, n) => if inum < |v.inode| then v.(inode := v.inode[inum := n]) else v
    case SetBlock(b, data) => if b < |v.block| then v.(block := v.block[b := data]) else v
  }

  ghost function AfterAll(v: Volume, us: seq<Update>): (v': Volume)
    ensures |v'.bitmap| == |v.bitmap| && |v'.inode| == |v.inode| && |v'.block| == |v.block|
  {
    if us == [] then v else After(AfterAll(v, us[..|us| - 1]), us[|us| - 1])
  }

  lemma AfterMore(v: Volume, us: seq<Update>, i: nat)
    requires i < |us|
    ensures AfterAll(v, us[..i + 1]) == After(AfterAll(v, us[..i]), us[i])
  {
    assert us[..i + 1][..i] == us[..i];
  }

  lemma BlocksMore(g: Geometry, us: seq<Update>, i: nat)
    requires i < |us|
    ensures BlocksOf(g, us[..i + 1]) == BlocksOf(g, us[..i]) + {BlockOf(g, us[i])} && BlocksOf(g, us[..i + 1]) <= BlocksOf(g, us)
  {
    assert us[..i + 1] == us[..i] + [us[i]];
    forall b | b in BlocksOf(g, us[..i]) + {BlockOf(g, us[i])} ensures b in BlocksOf(g, us[..i + 1]) {
      if b == BlockOf(g, us[i]) {
        assert us[i] in us[..i + 1];
      } else {
        var u :| u in us[..i] && BlockOf(g, u) == b;
        assert u in us[..i + 1];
      }
    }
  }

  /** What several transactions make of a volume. */
  ghost function AfterTransactions(v: Volume, txs: seq<seq<Update>>): Volume {
    if txs == [] then v else AfterAll(AfterTransactions(v, txs[..|txs| - 1]), txs[|txs| - 1])
  }

  /** The updates `us`, of the blocks `logged`, lead from one volume to another. */
  ghost predicate Leads(g: Geometry, v: Volume, us: seq<Update>, v': Volume, logged: set<nat>) {
    && AfterAll(v, us) == v' && logged == BlocksOf(g, us) && forall u | u in us :: Applies(g, v, u)
  }

  lemma LeadsNowhere(g: Geometry, v: Volume)
    ensures Leads(g, v, [], v, {})
  {
  }

  lemma WhereLed(g: Geometry, v: Volume, us: seq<Update>, v': Volume, logged: set<nat>)
    requires Leads(g, v, us, v', logged)
    ensures v' == AfterAll(v, us) && logged == BlocksOf(g, us)
  {
  }

  lemma LeadsOn(g: Geometry, v: Volume, us: seq<Update>, v': Volume, logged: set<nat>, u: Update)
    requires Leads(g, v, us, v', logged) && Applies(g, v', u)
    ensures Leads(g, v, us + [u], After(v', u), logged + {BlockOf(g, u)})
  {
    assert (us + [u])[..|us|] == us;
    forall x | x in us + [u] ensures Applies(g, v, x) {
    }
    forall b | b in logged + {BlockOf(g, u)} ensures b in BlocksOf(g, us + [u]) {
      if b in logged {
        var x :| x in us && BlockOf(g, x) == b;
        assert x in us + [u];
      } else {
        assert u in us + [u];
      }
    }
  }

  lemma BitTarget(b: nat)
    ensures b / 8 / BSIZE == b / BPB
  {
  }
}
