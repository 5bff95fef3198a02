/** Who holds which buffer: bget and brelse of kern/bio.c as steps of any number of requests that interleave
    in any order.  A critical section under bcache.lock is one step, and so are taking and giving up the
    sleep lock of a buffer. */
module BufferLocks {
  import opened Options

  datatype Buf = Buf(blockno: nat, dirty: bool, refcnt: nat, holder: Option<nat>)

  /** Where a request for a block stands: counted and waiting for the lock of a buffer, returned from bget
      with the lock, or in brelse between giving up the lock and giving up the reference. */
  datatype Request = Out | Waiting(b: nat, s: nat) | Holding(b: nat, s: nat) | Leaving(b: nat)

  datatype State = State(buf: seq<Buf>, req: seq<Request>)

  datatype Step =
    | Hit(p: nat, s: nat, b: nat)         // the block is cached
    | Recycle(p: nat, s: nat, b: nat)     // it is not: a free clean buffer gets it
    | Lock(p: nat)                        // acquiresleep
    | SetDirty(p: nat, dirty: bool)       // log_write and sdrw
    | Unlock(p: nat)                      // releasesleep
    | Drop(p: nat)                        // the end of brelse

  predicate Cached(s: State, blockno: nat) { exists b :: 0 <= b < |s.buf| && s.buf[b].blockno == blockno }

  ghost predicate Enabled(s: State, x: Step) {
    && x.p < |s.req|
    && match x
       case Hit(p, n, b) => n > 0 && s.req[p].Out? && b < |s.buf| && s.buf[b].blockno == n
       case Recycle(p, n, b) => n > 0 && s.req[p].Out? && !Cached(s, n) && b < |s.buf| && s.buf[b].refcnt == 0 && !s.buf[b].dirty
       case Lock(p) => s.req[p].Waiting? && s.req[p].b < |s.buf| && s.buf[s.req[p].b].holder == None
       case SetDirty(p, _) => s.req[p].Holding? && s.req[p].b < |s.buf|
       case Unlock(p) => s.req[p].Holding? && s.req[p].b < |s.buf|
       case Drop(p) => s.req[p].Leaving? && s.req[p].b < |s.buf| && s.buf[s.req[p].b].refcnt > 0
  }

  /** The state after one buffer and one request changed. */
  function With(s: State, b: nat, x: Buf, p: nat, r: Request): State
    requires b < |s.buf| && p < |s.req|
  {
    State(s.buf[b := x], s.req[p := r])
  }

  ghost function After(s: State, x: Step): State
    requires Enabled(s, x)
  {
    match x
    case Hit(p, n, b) => With(s, b, s.buf[b].(refcnt := s.buf[b].refcnt + 1), p, Waiting(b, n))
    case Recycle(p, n, b) => With(s, b, Buf(n, false, 1, s.buf[b].holder), p, Waiting(b, n))
    case Lock(p) => var b := s.req[p].b; With(s, b, s.buf[b].(holder := Some(p)), p, Holding(b, s.req[p].s))
    case SetDirty(p, dirty) => var b := s.req[p].b; With(s, b, s.buf[b].(dirty := dirty), p, s.req[p])
    case Unlock(p) => var b := s.req[p].b; With(s, b, s.buf[b].(holder := None), p, Leaving(b))
    case Drop(p) => var b := s.req[p].b; With(s, b, s.buf[b].(refcnt := s.buf[b].refcnt - 1), p, Out)
  }

  // The invariant

  predicate Refers(r: Request, b: nat) { !r.Out? && r.b == b }

  ghost function Referrers(s: State, b: nat): set<nat> { set p | 0 <= p < |s.req| && Refers(s.req[p], b) }

  /** The references to a buffer are counted, and its lock is held by a request that has it. */
  ghost predicate BufOk(s: State, b: nat)
    requires b < |s.buf|
  {
    && s.buf[b].refcnt == |Referrers(s, b)|
    && (s.buf[b].holder.Some? ==> s.buf[b].holder.value < |s.req| && s.req[s.buf[b].holder.value].Holding?
                                  && s.req[s.buf[b].holder.value].b == b)
  }

  /** A request has a buffer of the cache; while it waits for it or holds it, the buffer is for its block. */
  ghost predicate RequestOk(s: State, p: nat)
    requires p < |s.req|
  {
    && (!s.req[p].Out? ==> s.req[p].b < |s.buf|)
    && (s.req[p].Waiting? || s.req[p].Holding? ==> s.req[p].s > 0 && s.buf[s.req[p].b].blockno == s.req[p].s)
    && (s.req[p].Holding? ==> s.buf[s.req[p].b].holder == Some(p))
  }

  ghost predicate Inv(s: State) {
    && (forall b | 0 <= b < |s.buf| :: BufOk(s, b))
    && (forall p | 0 <= p < |s.req| :: RequestOk(s, p))
    && forall b, c | 0 <= b < c < |s.buf| && s.buf[b].blockno != 0 :: s.buf[c].blockno != s.buf[b].blockno
  }

  lemma ReferrersAfter(s: State, b: nat, x: Buf, p: nat, r: Request, c: nat)
    requires b < |s.buf| && p < |s.req|
    ensures |Referrers(With(s, b, x, p, r), c)| ==
            |Referrers(s, c)| + (if Refers(r, c) then 1 else 0) - if Refers(s.req[p], c) then 1 else 0
  {
    var rest := Referrers(s, c) - {p};
    assert Referrers(s, c) == if Refers(s.req[p], c) then rest + {p} else rest;
    assert Referrers(With(s, b, x, p, r), c) == if Refers(r, c) then rest + {p} else rest;
  }

  /** What a buffer that nobody refers to looks like. */
  lemma Unreferred(s: State, b: nat)
    requires Inv(s) && b < |s.buf| && s.buf[b].refcnt == 0
    ensures s.buf[b].holder == None && forall p | 0 <= p < |s.req| :: !Refers(s.req[p], b)
  {
    assert BufOk(s, b);
    assert Referrers(s, b) == {};
    forall p | 0 <= p < |s.req| ensures !Refers(s.req[p], b) {
      assert p !in Referrers(s, b);
    }
  }

  lemma StepKeeps(s: State, x: Step)
    requires Inv(s) && Enabled(s, x)
    ensures Inv(After(s, x))
  {
    var p, s' := x.p, After(s, x);
    assert RequestOk(s, p);
    var b := if x.Hit? || x.Recycle? then x.b else s.req[p].b;
    if x.Recycle? {
      Unreferred(s, b);
    }
    forall c | 0 <= c < |s'.buf| ensures BufOk(s', c) {
      assert BufOk(s, c) && BufOk(s, b);
      ReferrersAfter(s, b, s'.buf[b], p, s'.req[p], c);
    }
    forall q | 0 <= q < |s'.req| ensures RequestOk(s', q) {
      assert RequestOk(s, q) && BufOk(s, b);
    }
  }

  // Runs

  /** binit: no buffer is for a block, and no request was made. */
  function Initial(buffers: nat, requests: nat): State {
    State(seq(buffers, _ => Buf(0, false, 0, None)), seq(requests, _ => Out))
  }

  ghost predicate IsRun(s: State, steps: seq<Step>)
    decreases steps
  {
    steps == [] || (Enabled(s, steps[0]) && IsRun(After(s, steps[0]), steps[1..]))
  }

  ghost function RunOf(s: State, steps: seq<Step>): State
    requires IsRun(s, steps)
    decreases steps
  {
    if steps == [] then s else RunOf(After(s, steps[0]), steps[1..])
  }

  ghost predicate Reachable(s: State) {
    exists buffers: nat, requests: nat, steps :: Reaches(buffers, requests, steps, s)
  }

  ghost predicate Reaches(buffers: nat, requests: nat, steps: seq<Step>, s: State) {
    IsRun(Initial(buffers, requests), steps) && RunOf(Initial(buffers, requests), steps) == s
  }

  lemma {:induction false} RunKeeps(s: State, steps: seq<Step>)
    requires Inv(s) && IsRun(s, steps)
    ensures Inv(RunOf(s, steps))
    decreases steps
  {
    hide Inv, Enabled;
    if steps != [] {
      StepKeeps(s, steps[0]);
      RunKeeps(After(s, steps[0]), steps[1..]);
    }
  }

  lemma ReachableOk(s: State)
    requires Reachable(s)
    ensures Inv(s)
  {
    var buffers: nat, requests: nat, steps :| Reaches(buffers, requests, steps, s);
    InitialOk(buffers, requests);
    RunKeeps(Initial(buffers, requests), steps);
  }

  lemma InitialOk(buffers: nat, requests: nat)
    ensures Inv(Initial(buffers, requests))
  {
    var s := Initial(buffers, requests);
    forall b | 0 <= b < |s.buf| ensures BufOk(s, b) {
      assert Referrers(s, b) == {};
    }
  }

  // What callers rely on

  /** A request that returned from bget holds the lock of a buffer for the block that it asked for, and
      nobody else holds a buffer for that block. */
  lemma BgetReturnsTheBlock(s: State, p: nat)
    requires Reachable(s) && p < |s.req| && s.req[p].Holding?
    ensures s.req[p].b < |s.buf| && s.buf[s.req[p].b].blockno == s.req[p].s && s.buf[s.req[p].b].holder == Some(p)
    ensures forall q | 0 <= q < |s.req| && q != p && s.req[q].Holding? :: s.req[q].s != s.req[p].s && s.req[q].b != s.req[p].b
  {
    ReachableOk(s);
    assert RequestOk(s, p);
    forall q | 0 <= q < |s.req| && q != p && s.req[q].Holding? ensures s.req[q].s != s.req[p].s && s.req[q].b != s.req[p].b {
      assert RequestOk(s, q);
    }
  }

  /** No step takes the buffer of a block away from a request that waits for it or holds it, and none
      recycles a dirty buffer. */
  lemma NeverRecycledUnderUse(s: State, x: Step, b: nat)
    requires Reachable(s) && Enabled(s, x) && b < |s.buf|
    ensures (exists p :: 0 <= p < |s.req| && Refers(s.req[p], b)) || s.buf[b].dirty ==> After(s, x).buf[b].blockno == s.buf[b].blockno
  {
    ReachableOk(s);
    if x.Recycle? && x.b == b {
      Unreferred(s, b);
    }
  }

  /** A block that is cached or waited for stays in one buffer: two requests for it meet in that buffer. */
  lemma OneBufferEach(s: State, p: nat, q: nat)
    requires Reachable(s) && p < |s.req| && q < |s.req|
    requires (s.req[p].Waiting? || s.req[p].Holding?) && (s.req[q].Waiting? || s.req[q].Holding?) && s.req[p].s == s.req[q].s
    ensures s.req[p].b == s.req[q].b
  {
    ReachableOk(s);
    assert RequestOk(s, p) && RequestOk(s, q);
  }

  /** The panic of bget: with the block not cached, no step is possible for a request for it exactly when
      every buffer is dirty or has a request that did not give up its reference. */
  lemma BgetPanics(s: State, p: nat, n: nat)
    requires Reachable(s) && p < |s.req| && s.req[p].Out? && n > 0 && !Cached(s, n)
    ensures (forall b: nat :: !Enabled(s, Hit(p, n, b)) && !Enabled(s, Recycle(p, n, b)))
       <==> (forall b | 0 <= b < |s.buf| :: s.buf[b].dirty || exists q :: 0 <= q < |s.req| && Refers(s.req[q], b))
  {
    ReachableOk(s);
    forall b | 0 <= b < |s.buf| ensures s.buf[b].refcnt > 0 <==> exists q :: 0 <= q < |s.req| && Refers(s.req[q], b) {
      assert BufOk(s, b);
      if s.buf[b].refcnt == 0 {
        Unreferred(s, b);
      } else {
        assert Referrers(s, b) != {};
        var q :| q in Referrers(s, b);
      }
    }
    if forall b: nat :: !Enabled(s, Hit(p, n, b)) && !Enabled(s, Recycle(p, n, b)) {
      forall b | 0 <= b < |s.buf| ensures s.buf[b].dirty || s.buf[b].refcnt > 0 {
        assert !Enabled(s, Recycle(p, n, b));
      }
    }
  }
}
