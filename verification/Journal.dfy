/** Group commit with contents: begin_op, log_write and end_op of any number of operations, their updates
    in any order, committed together when the last one ends.  A run is any sequence of calls. */
module Journal {
  import opened Blocks
  import opened Updates
  import opened Disk
  import opened Recovery
  import opened Transactions
  import Log

  /** An operation passes an update to log_write. */
  datatype Event = Event(op: nat, u: Update)

  ghost function UpdatesOf(es: seq<Event>): seq<Update> { seq(|es|, i requires 0 <= i < |es| => es[i].u) }

  /** What one operation logged among the events. */
  ghost function Own(es: seq<Event>, op: nat): seq<Update> {
    if es == [] then []
    else Own(es[..|es| - 1], op) + if es[|es| - 1].op == op then [es[|es| - 1].u] else []
  }

  /** The volume after groups of events were committed one after another. */
  ghost function AfterGroups(v: Volume, groups: seq<seq<Event>>): (v': Volume)
    ensures |v'.bitmap| == |v.bitmap| && |v'.inode| == |v.inode| && |v'.block| == |v.block|
  {
    if groups == [] then v else AfterAll(AfterGroups(v, groups[..|groups| - 1]), UpdatesOf(groups[|groups| - 1]))
  }

  /** What one operation logged in all of the groups. */
  ghost function OwnInAll(groups: seq<seq<Event>>, op: nat): seq<Update> {
    if groups == [] then [] else OwnInAll(groups[..|groups| - 1], op) + Own(groups[|groups| - 1], op)
  }

  /** All that an operation logged is in its own group. */
  ghost predicate Placed(groups: seq<seq<Event>>, current: seq<Event>, op: nat, own: seq<Update>, home: nat) {
    && home <= |groups| && Own(current, op) == (if home == |groups| then own else [])
    && forall k | 0 <= k < |groups| :: Own(groups[k], op) == if home == k then own else []
  }

  ghost predicate OneGroupEach(groups: seq<seq<Event>>, current: seq<Event>, own: map<nat, seq<Update>>, home: map<nat, nat>) {
    && own.Keys == home.Keys && (forall op | op in own :: Placed(groups, current, op, own[op], home[op]))
    && forall op: nat | op !in own :: Placed(groups, current, op, [], |groups|)
  }

  /** The open operations are counted and belong to the group to come; with none open nothing is logged. */
  ghost predicate Counted(outstanding: nat, open: set<nat>, own: map<nat, seq<Update>>, home: map<nat, nat>, k: nat, current: seq<Event>) {
    && outstanding == |open| && own.Keys == home.Keys && (forall op | op in open :: op in own && home[op] == k)
    && (open == {} ==> current == [])
  }

  lemma CountedMore(outstanding: nat, open: set<nat>, own: map<nat, seq<Update>>, home: map<nat, nat>, k: nat, current: seq<Event>, op: nat)
    requires Counted(outstanding, open, own, home, k, current) && op !in own
    ensures Counted(outstanding + 1, open + {op}, own[op := []], home[op := k], k, current)
  {
    AtMostOneMore(open, op);
  }

  lemma CountedSize(outstanding: nat, open: set<nat>, own: map<nat, seq<Update>>, home: map<nat, nat>, k: nat, current: seq<Event>)
    requires Counted(outstanding, open, own, home, k, current)
    ensures outstanding == |open| && (open == {} ==> current == [])
  {
  }

  ghost predicate Sorted(found: seq<nat>) { forall i, j | 0 <= i < j < |found| :: found[i] <= found[j] }

  lemma {:induction false} WhollyOrNot(groups: seq<seq<Event>>, current: seq<Event>, op: nat, own: seq<Update>, home: nat, k: nat)
    requires Placed(groups, current, op, own, home) && k <= |groups|
    ensures OwnInAll(groups[..k], op) == if home < k then own else []
  {
    hide Own;
    if k > 0 {
      WhollyOrNot(groups, current, op, own, home, k - 1);
      var g := groups[..k];
      assert g[..|g| - 1] == groups[..k - 1] && g[|g| - 1] == groups[k - 1];
      assert OwnInAll(g, op) == OwnInAll(groups[..k - 1], op) + Own(groups[k - 1], op);
    }
  }

  // How much room the open operations have left

  /** begin_op leaves room for MAXOPBLOCKS blocks; an operation may log one fewer. */
  const OPLIMIT: nat := MAXOPBLOCKS - 1

  ghost function Left(g: Geometry, us: seq<Update>): int { OPLIMIT - |BlocksOf(g, us)| }

  ghost function LeftOfAll(g: Geometry, open: set<nat>, own: map<nat, seq<Update>>): int
    requires open <= own.Keys
    decreases |open|
  {
    if open == {} then 0
    else
      var op :| op in open;
      Left(g, own[op]) + LeftOfAll(g, open - {op}, own)
  }

  lemma {:induction false} LeftSplit(g: Geometry, open: set<nat>, own: map<nat, seq<Update>>, x: nat)
    requires open <= own.Keys && x in open
    ensures LeftOfAll(g, open, own) == Left(g, own[x]) + LeftOfAll(g, open - {x}, own)
    decreases |open|
  {
    hide Left;
    var op :| op in open && LeftOfAll(g, open, own) == Left(g, own[op]) + LeftOfAll(g, open - {op}, own);
    if op != x {
      LeftSplit(g, open - {op}, own, x);
      LeftSplit(g, open - {x}, own, op);
      assert open - {op} - {x} == open - {x} - {op};
    }
  }

  lemma {:induction false} LeftSame(g: Geometry, open: set<nat>, own: map<nat, seq<Update>>, own': map<nat, seq<Update>>)
    requires open <= own.Keys && open <= own'.Keys && forall op | op in open :: own'[op] == own[op]
    ensures LeftOfAll(g, open, own') == LeftOfAll(g, open, own)
    decreases |open|
  {
    hide Left;
    if x :| x in open {
      LeftSplit(g, open, own, x);
      LeftSplit(g, open, own', x);
      LeftSame(g, open - {x}, own, own');
    }
  }

  lemma {:induction false} LeftAtMost(g: Geometry, open: set<nat>, own: map<nat, seq<Update>>)
    requires open <= own.Keys
    ensures LeftOfAll(g, open, own) <= OPLIMIT * |open|
    decreases |open|
  {
    if x :| x in open {
      LeftSplit(g, open, own, x);
      LeftAtMost(g, open - {x}, own);
    }
  }

  /** The blocks that are logged and those that the open operations may still log are fewer than the log has. */
  ghost predicate Budget(g: Geometry, logged: nat, open: set<nat>, own: map<nat, seq<Update>>) {
    && open <= own.Keys && (forall op | op in open :: Left(g, own[op]) >= 0)
    && logged + LeftOfAll(g, open, own) <= LOGSIZE - 2
  }

  lemma BudgetBegins(g: Geometry, logged: nat, open: set<nat>, own: map<nat, seq<Update>>, op: nat)
    requires Budget(g, logged, open, own) && op !in own && logged + (|open| + 1) * MAXOPBLOCKS <= LOGSIZE
    requires open == {} ==> logged == 0
    ensures Budget(g, logged, open + {op}, own[op := []])
  {
    LeftSame(g, open, own, own[op := []]);
    LeftSplit(g, open + {op}, own[op := []], op);
    assert open + {op} - {op} == open && BlocksOf(g, []) == {};
    LeftAtMost(g, open, own);
    if open != {} {
      assert |open| >= 1;
    }
  }

  lemma BudgetLogs(g: Geometry, logged: nat, open: set<nat>, own: map<nat, seq<Update>>, op: nat, u: Update, logged': nat)
    requires Budget(g, logged, open, own) && op in open && Left(g, own[op] + [u]) >= 0
    requires logged' <= logged + if BlockOf(g, u) in BlocksOf(g, own[op]) then 0 else 1
    ensures Budget(g, logged', open, own[op := own[op] + [u]])
  {
    hide LeftOfAll, Left;
    var own' := own[op := own[op] + [u]];
    LeftSplit(g, open, own, op);
    LeftSplit(g, open, own', op);
    LeftSame(g, open - {op}, own, own');
    LeftMore(g, own[op], u);
  }

  lemma LeftMore(g: Geometry, us: seq<Update>, u: Update)
    ensures Left(g, us + [u]) == Left(g, us) - if BlockOf(g, u) in BlocksOf(g, us) then 0 else 1
  {
    hide BlocksOf;
    assert (us + [u])[..|us| + 1] == us + [u] && (us + [u])[..|us|] == us;
    BlocksMore(g, us + [u], |us|);
    OneMore(BlocksOf(g, us), BlockOf(g, u));
  }

  lemma OneMore(t: set<nat>, b: nat)
    ensures |t + {b}| == |t| + if b in t then 0 else 1
  {
    assert b in t ==> t + {b} == t;
  }

  lemma BudgetEnds(g: Geometry, logged: nat, open: set<nat>, own: map<nat, seq<Update>>, op: nat)
    requires Budget(g, logged, open, own) && op in open
    ensures Budget(g, logged, open - {op}, own)
  {
    hide LeftOfAll;
    LeftSplit(g, open, own, op);
  }

  lemma BudgetEmpty(g: Geometry, own: map<nat, seq<Update>>)
    ensures Budget(g, 0, {}, own)
  {
  }

  lemma {:induction false} BudgetBounds(g: Geometry, logged: nat, open: set<nat>, own: map<nat, seq<Update>>)
    requires Budget(g, logged, open, own)
    ensures logged <= LOGSIZE - 2
    decreases |open|
  {
    if x :| x in open {
      LeftSplit(g, open, own, x);
      BudgetBounds(g, logged, open - {x}, own);
    }
  }

  class Journal {
    const log: Log.Log
    const g: Geometry
    var outstanding: nat
    ghost var initial: Volume
    ghost var groups: seq<seq<Event>>        // what each commit made durable
    ghost var current: seq<Event>            // what was logged since
    ghost var open: set<nat>                 // the operations between begin_op and end_op
    ghost var own: map<nat, seq<Update>>     // what each operation logged so far
    ghost var home: map<nat, nat>            // and the group that it belongs to
    ghost var limited: bool                  // no operation so far logged more than OPLIMIT distinct blocks
    ghost var states: seq<Image>             // the states of the card since the start
    ghost var found: seq<nat>                // how many groups recovery finds in each

    ghost function At(k: nat): (v: Volume)
      reads `initial, `groups
      requires k <= |groups|
    {
      AfterGroups(initial, groups[..k])
    }

    /** From every state that the card was in, recovery, cut off and started over at will, finds the volume
        after some of the groups, never fewer than in an earlier state. */
    ghost predicate Crashes()
      reads `initial, `groups, `states, `found
    {
      |found| == |states| > 0 && Chains(states, found, log.region, g, initial, groups) && Sorted(found)
    }

    /** Every operation has all its updates in one group. */
    ghost predicate Whole()
      reads `groups, `current, `own, `home
    {
      OneGroupEach(groups, current, own, home)
    }

    ghost predicate Safe()
      reads this
    {
      Crashes() && Whole()
    }

    /** The card has the volume after the groups, the cache and the log have what was logged since. */
    ghost predicate Synced()
      reads `initial, `groups, `current, `states, `found, log, log.cache, log.cache.disk
    {
      && InStep(log, g, AfterAll(At(|groups|), UpdatesOf(current))) && LaidOut(g, log.region, initial)
      && Stored(log.cache.disk.sector, g, At(|groups|)) && log.Logged() == SectorsOf(BlocksOf(g, UpdatesOf(current)))
      && |found| == |states| > 0 && states[|states| - 1] == log.cache.disk.sector && found[|states| - 1] == |groups|
    }

    ghost predicate Valid()
      reads this, log, log.cache, log.cache.disk
    {
      && Safe() && Synced() && Counted(outstanding, open, own, home, |groups|, current)
      && (limited ==> Budget(g, log.n, open, own))
    }

    constructor (log: Log.Log, g: Geometry, ghost v: Volume)
      requires Durable(log, g, v)
      ensures Valid() && this.log == log && this.g == g && initial == v && groups == [] && own == map[] && states == [log.cache.disk.sector]
      ensures limited
    {
      this.log, this.g, this.outstanding := log, g, 0;
      initial, groups, current, open, own, home := v, [], [], {}, map[], map[];
      states, found, limited := [log.cache.disk.sector], [0], true;
      new;
      log.LoggedSize();
      hide Stored, LaidOut, Log.Log.Valid;
      StartedFrom(log, g, v);
      NothingWritten(log.cache.disk.sector, log.region, g, v, v);
      FirstChain(log.cache.disk.sector, log.region, g, v);
      NoEvents(g, v);
    }

    /** begin_op of a new operation.  Not ok: it has to sleep. */
    method BeginOp(op: nat) returns (ok: bool)
      requires Valid() && op !in own
      modifies this`outstanding, this`open, this`own, this`home
      ensures Valid() && (ok <==> log.n + (old(outstanding) + 1) * MAXOPBLOCKS <= LOGSIZE)
      ensures if ok then open == old(open) + {op} && own == old(own)[op := []] && home == old(home)[op := |groups|]
              else open == old(open) && own == old(own) && home == old(home)
    {
      hide Synced, Crashes, OneGroupEach, Budget, Counted;
      NothingYet();
      if log.n + (outstanding + 1) * MAXOPBLOCKS > LOGSIZE {
        return false;
      }
      NewOperation(groups, current, own, home, op);
      CountedMore(outstanding, open, own, home, |groups|, current, op);
      CountedSize(outstanding, open, own, home, |groups|, current);
      if limited {
        BudgetBegins(g, log.n, open, own, op);
      }
      outstanding, open, own, home := outstanding + 1, open + {op}, own[op := []], home[op := |groups|];
      ok := true;
    }

    /** The buffer, the cache and the log in log_write; the books are kept by LogWrite. */
    method LogEvent(op: nat, u: Update) returns (ok: bool)
      requires Synced() && Whole() && op in own && home[op] == |groups| && Applies(g, initial, u)
      modifies this`current, log`n, log`block, log.cache, log.cache.disk
      ensures log.cache.disk.sector == old(log.cache.disk.sector) && log.cache.disk.history == old(log.cache.disk.history)
      ensures ok ==> Synced() && current == old(current) + [Event(op, u)]
      ensures !ok ==> current == old(current)
      ensures ok ==> log.n <= old(log.n) + if BlockOf(g, u) in BlocksOf(g, own[op]) then 0 else 1
      ensures old(log.cache.Quiet()) && ok ==> log.cache.Quiet()
      ensures old(log.cache.Quiet()) && old(log.n) < LOGSIZE && old(log.n) < log.region.size - 1 ==> ok
    {
      hide InStep, LaidOut, Stored, OneGroupEach, AfterAll, UpdatesOf, SectorsOf, BlocksOf, BlockOf, Log.Sectors;
      ghost var v, es, logged := At(|groups|), current, log.Logged();
      SizesKept(v, UpdatesOf(es), g, u);
      ListedInStep(log, g, AfterAll(v, UpdatesOf(es)));
      OwnLogged(groups, es, own, home, g, op);
      ok := LogUpdate(log, g, u, AfterAll(v, UpdatesOf(es)));
      if ok {
        EventMore(v, g, es, Event(op, u));
        ListedInStep(log, g, After(AfterAll(v, UpdatesOf(es)), u));
        AtMostOneMore(logged, BlockOf(g, u) + MBR_BASE);
        current := current + [Event(op, u)];
      }
    }

    /** One update of an open operation.  Not ok is a panic; the card is as before. */
    method LogWrite(op: nat, u: Update) returns (ok: bool)
      requires Valid() && op in open && Applies(g, initial, u)
      modifies this`current, this`own, this`limited, log`n, log`block, log.cache, log.cache.disk
      ensures log.cache.disk.sector == old(log.cache.disk.sector) && log.cache.disk.history == old(log.cache.disk.history)
      ensures if ok then Valid() && own == old(own)[op := old(own)[op] + [u]] else Safe() && own == old(own)
      ensures old(log.cache.Quiet()) && ok ==> log.cache.Quiet()
      ensures limited == (old(limited) && Left(g, old(own)[op] + [u]) >= 0)
      ensures old(log.cache.Quiet()) && limited && LOGSIZE <= log.region.size ==> ok
    {
      hide Synced, Crashes, OneGroupEach, Budget, Left, BlocksOf, BlockOf;
      ghost var n0, es := log.n, current;
      if limited {
        BudgetBounds(g, n0, open, own);
      }
      ok := LogEvent(op, u);
      limited := limited && Left(g, own[op] + [u]) >= 0;
      if ok {
        EventPlaced(groups, es, own, home, op, u);
        if limited {
          BudgetLogs(g, n0, open, own, op, u, log.n);
        }
        own := own[op := own[op] + [u]];
      }
    }

    lemma NothingYet()
      requires Synced()
      ensures current == [] ==> log.n == 0
    {
      if current == [] {
        NoEvents(g, At(|groups|));
        log.LoggedSize();
      }
    }

    /** Whichever state of the card a failure leaves, at any point of any run, and however often recovery is
        cut off and started over, it finds the volume after the first found[i] groups; and in these every
        operation is with all that it logged, or with nothing of it. */
    lemma CrashPoint(i: nat, ds: seq<Image>)
      requires Safe() && i < |states| && ds != [] && ds[0] == states[i] && Restarts(ds, log.region)
      ensures found[i] <= |groups| && RestartChain(ds, log.region) && Finds(ds, log.region, g, At(found[i]))
      ensures forall op | op in own :: OwnInAll(groups[..found[i]], op) == if home[op] < found[i] then own[op] else []
    {
      hide HeaderOk, RestartChain, Finds, Placed, Restarts;
      assert Recoverable(states[i], log.region, g, AfterGroups(initial, groups[..found[i]]));
      RestartsAreChain(ds, log.region);
      forall op | op in own ensures OwnInAll(groups[..found[i]], op) == if home[op] < found[i] then own[op] else [] {
        WhollyOrNot(groups, current, op, own[op], home[op], found[i]);
      }
    }

    /** Commit: the events since the last one become a group. */
    method Commit() returns (ok: bool)
      requires Safe() && Synced()
      modifies `groups, `current, `states, `found, log`n, log`block, log.cache, log.cache.disk
      ensures Safe() && old(states) <= states
      ensures log.cache.disk.history == old(log.cache.disk.history) + states[|old(states)|..]
      ensures ok ==> Synced() && current == [] && groups == old(groups) + if old(current) == [] then [] else [old(current)]
      ensures ok ==> forall x | x in own :: OwnInAll(groups, x) == own[x]
      ensures old(log.cache.Quiet()) && ok ==> log.cache.Quiet()
      ensures old(log.cache.Quiet()) && old(log.n) < LOGSIZE ==> ok
    {
      hide OwnInAll, InStep, Stored, LaidOut, OneGroupEach, AfterAll, UpdatesOf, Chains, Atomic, AfterGroups, Sorted, SectorsOf, BlocksOf;
      ghost var k, es := |groups|, current;
      Groups(initial, groups, es);
      SameLayout(g, log.region, initial, At(k));
      NothingLogged(g, es);
      ghost var before, after;
      ok, before, after := CommitVolume(log, g, At(k), AfterAll(At(k), UpdatesOf(es)));
      MoreChains(states, found, before, after, log.region, g, initial, groups, es);
      if after != [] {
        GroupPlaced(groups, es, own, home);
        groups, current := groups + [es], [];
      }
      states := states + before[1..] + after;
      StaysSorted(found, k, |before| - 1, |after|);
      found := found + seq(|before| - 1, _ => k) + seq(|after|, _ => k + 1);
      NoEvents(g, At(|groups|));
      if ok {
        AllDurable(groups, own, home);
      }
    }

    /** end_op: the last operation commits all.  Not ok is a panic in the commit. */
    method EndOp(op: nat) returns (ok: bool)
      requires Valid() && op in open
      modifies this, log`n, log`block, log.cache, log.cache.disk
      ensures Safe() && own == old(own) && home == old(home) && open == old(open) - {op} && old(states) <= states
      ensures log.cache.disk.history == old(log.cache.disk.history) + states[|old(states)|..]
      ensures ok ==> Valid()
      ensures open != {} ==> ok && groups == old(groups) && current == old(current) && states == old(states)
      ensures open == {} && ok ==> groups == old(groups) + if old(current) == [] then [] else [old(current)]
      ensures open == {} && ok ==> forall x | x in own :: OwnInAll(groups, x) == own[x]
      ensures old(log.cache.Quiet()) && ok ==> log.cache.Quiet()
      ensures limited == old(limited) && (old(log.cache.Quiet()) && limited ==> ok)
    {
      hide Crashes, OneGroupEach, Synced, OwnInAll, Budget;
      if limited {
        BudgetBounds(g, log.n, open, own);
        BudgetEnds(g, log.n, open, own, op);
        BudgetEmpty(g, own);
      }
      OneFewer(open, op);
      outstanding := outstanding - 1;
      open := open - {op};
      if outstanding == 0 {
        ok := Commit();
        if ok {
          NothingYet();
        }
      } else {
        ok := true;
      }
    }
  }

  lemma OneFewer(open: set<nat>, op: nat)
    requires op in open
    ensures |open - {op}| == |open| - 1 && (|open| == 1 <==> open - {op} == {})
  {
    assert open == (open - {op}) + {op};
  }

  lemma Groups(v: Volume, groups: seq<seq<Event>>, es: seq<Event>)
    ensures groups[..|groups|] == groups && (groups + [es])[..|groups|] == groups && (groups + [es])[..|groups| + 1] == groups + [es]
    ensures AfterGroups(v, groups + [es]) == AfterAll(AfterGroups(v, groups), UpdatesOf(es))
  {
    hide UpdatesOf, AfterAll;
  }

  lemma SameLayout(g: Geometry, r: Region, v: Volume, v': Volume)
    requires LaidOut(g, r, v) && |v'.bitmap| == |v.bitmap| && |v'.inode| == |v.inode| && |v'.block| == |v.block|
    ensures LaidOut(g, r, v')
  {
  }

  lemma NothingLogged(g: Geometry, es: seq<Event>)
    ensures SectorsOf(BlocksOf(g, UpdatesOf(es))) == {} <==> es == []
  {
    hide BlockOf;
    if es != [] {
      assert UpdatesOf(es)[0] in UpdatesOf(es);
      assert BlockOf(g, UpdatesOf(es)[0]) in BlocksOf(g, UpdatesOf(es));
      assert BlockOf(g, UpdatesOf(es)[0]) + MBR_BASE in SectorsOf(BlocksOf(g, UpdatesOf(es)));
    }
  }

  /** The states of a commit, behind those from before. */
  lemma MoreChains(states: seq<Image>, found: seq<nat>, before: seq<Image>, after: seq<Image>, r: Region, g: Geometry, v: Volume,
                   groups: seq<seq<Event>>, es: seq<Event>)
    requires |found| == |states| && Chains(states, found, r, g, v, groups) && before != []
    requires Atomic(before + after, |before|, r, g, AfterGroups(v, groups), AfterAll(AfterGroups(v, groups), UpdatesOf(es)))
    ensures
      var states', k := states + before[1..] + after, |groups|;
      var found' := found + seq(|before| - 1, _ => k) + seq(|after|, _ => k + 1);
      && |found'| == |states'| && Chains(states', found', r, g, v, groups + [es])
      && (after == [] ==> Chains(states', found', r, g, v, groups))
  {
    hide Recoverable, AfterAll, UpdatesOf, AfterGroups, Atomic;
    var all := before + after;
    AtomicStates(all, |before|, r, g, AfterGroups(v, groups), AfterAll(AfterGroups(v, groups), UpdatesOf(es)));
    Groups(v, groups, es);
    var states', k := states + before[1..] + after, |groups|;
    var found' := found + seq(|before| - 1, _ => k) + seq(|after|, _ => k + 1);
    forall i | 0 <= i < |states'|
      ensures found'[i] <= k + 1 && Recoverable(states'[i], r, g, AfterGroups(v, (groups + [es])[..found'[i]]))
      ensures after == [] ==> found'[i] <= k && Recoverable(states'[i], r, g, AfterGroups(v, groups[..found'[i]]))
    {
      if i < |states| {
        assert (groups + [es])[..found[i]] == groups[..found[i]];
      } else {
        assert states'[i] == all[i - |states| + 1];
      }
    }
  }

  lemma PlacedNext(groups: seq<seq<Event>>, current: seq<Event>, x: nat, own: seq<Update>, home: nat)
    requires Placed(groups, current, x, own, home)
    ensures Placed(groups + [current], [], x, own, home)
    ensures own == [] ==> Placed(groups + [current], [], x, own, |groups| + 1)
  {
  }

  lemma AtMostOneMore(logged: set<nat>, s: nat)
    ensures |logged + {s}| == |logged| + if s in logged then 0 else 1
  {
    if s in logged {
      assert logged + {s} == logged;
    }
  }

  /** What an open operation logged is in the log. */
  lemma OwnLogged(groups: seq<seq<Event>>, es: seq<Event>, own: map<nat, seq<Update>>, home: map<nat, nat>, g: Geometry, op: nat)
    requires OneGroupEach(groups, es, own, home) && op in own && home[op] == |groups|
    ensures forall b | b in BlocksOf(g, own[op]) :: b + MBR_BASE in SectorsOf(BlocksOf(g, UpdatesOf(es)))
  {
    hide BlockOf;
    assert Placed(groups, es, op, own[op], home[op]);
    OwnAmong(es, op);
    forall b | b in BlocksOf(g, own[op]) ensures b + MBR_BASE in SectorsOf(BlocksOf(g, UpdatesOf(es))) {
      var u :| u in own[op] && BlockOf(g, u) == b;
      assert u in UpdatesOf(es);
      assert b in BlocksOf(g, UpdatesOf(es));
    }
  }

  lemma {:induction false} OwnAmong(es: seq<Event>, op: nat)
    ensures forall u | u in Own(es, op) :: u in UpdatesOf(es)
  {
    if es != [] {
      var m := |es| - 1;
      OwnAmong(es[..m], op);
      forall u | u in Own(es, op) ensures u in UpdatesOf(es) {
        if u in Own(es[..m], op) {
          var i :| 0 <= i < m && UpdatesOf(es[..m])[i] == u;
          assert UpdatesOf(es)[i] == u;
        } else {
          assert UpdatesOf(es)[m] == u;
        }
      }
    }
  }

  lemma NewOperation(groups: seq<seq<Event>>, current: seq<Event>, own: map<nat, seq<Update>>, home: map<nat, nat>, op: nat)
    requires OneGroupEach(groups, current, own, home) && op !in own
    ensures OneGroupEach(groups, current, own[op := []], home[op := |groups|])
  {
    hide Placed;
  }

  lemma EventPlaced(groups: seq<seq<Event>>, current: seq<Event>, own: map<nat, seq<Update>>, home: map<nat, nat>, op: nat, u: Update)
    requires OneGroupEach(groups, current, own, home) && op in own && home[op] == |groups|
    ensures OneGroupEach(groups, current + [Event(op, u)], own[op := own[op] + [u]], home)
  {
    hide Placed;
    var current' := current + [Event(op, u)];
    forall x | x in own ensures Placed(groups, current', x, if x == op then own[x] + [u] else own[x], home[x]) {
      PlacedMore(groups, current, op, u, x, own[x], home[x]);
    }
    forall x: nat | x !in own ensures Placed(groups, current', x, [], |groups|) {
      PlacedMore(groups, current, op, u, x, [], |groups|);
    }
  }

  lemma GroupPlaced(groups: seq<seq<Event>>, current: seq<Event>, own: map<nat, seq<Update>>, home: map<nat, nat>)
    requires OneGroupEach(groups, current, own, home)
    ensures OneGroupEach(groups + [current], [], own, home)
  {
    hide Placed;
    forall x | x in own ensures Placed(groups + [current], [], x, own[x], home[x]) {
      PlacedNext(groups, current, x, own[x], home[x]);
    }
    forall x: nat | x !in own ensures Placed(groups + [current], [], x, [], |groups| + 1) {
      PlacedNext(groups, current, x, [], |groups|);
    }
  }

  /** With nothing logged since the last commit, the groups have all that any operation logged. */
  lemma AllDurable(groups: seq<seq<Event>>, own: map<nat, seq<Update>>, home: map<nat, nat>)
    requires OneGroupEach(groups, [], own, home)
    ensures forall op | op in own :: OwnInAll(groups, op) == own[op]
  {
    hide OwnInAll;
    forall op | op in own ensures OwnInAll(groups, op) == own[op] {
      WhollyOrNot(groups, [], op, own[op], home[op], |groups|);
      assert groups[..|groups|] == groups;
    }
  }

  lemma StaysSorted(found: seq<nat>, k: nat, n: nat, m: nat)
    requires Sorted(found) && found != [] && found[|found| - 1] == k
    ensures Sorted(found + seq(n, _ => k) + seq(m, _ => k + 1))
  {
  }

  lemma SizesKept(v: Volume, us: seq<Update>, g: Geometry, u: Update)
    requires Applies(g, v, u)
    ensures Applies(g, AfterAll(v, us), u)
  {
  }

  lemma EventMore(v: Volume, g: Geometry, es: seq<Event>, e: Event)
    ensures AfterAll(v, UpdatesOf(es + [e])) == After(AfterAll(v, UpdatesOf(es)), e.u)
    ensures SectorsOf(BlocksOf(g, UpdatesOf(es + [e]))) == SectorsOf(BlocksOf(g, UpdatesOf(es))) + {BlockOf(g, e.u) + MBR_BASE}
  {
    hide AfterAll, BlocksOf, BlockOf;
    var us := UpdatesOf(es + [e]);
    assert us[..|es|] == UpdatesOf(es) && us[..|es| + 1] == us && us[|es|] == e.u;
    AfterMore(v, us, |es|);
    BlocksMore(g, us, |es|);
    OneMoreSector(BlocksOf(g, UpdatesOf(es)), BlockOf(g, e.u));
  }

  lemma PlacedMore(groups: seq<seq<Event>>, current: seq<Event>, op: nat, u: Update, x: nat, own: seq<Update>, home: nat)
    requires Placed(groups, current, x, own, home) && (x == op ==> home == |groups|)
    ensures Placed(groups, current + [Event(op, u)], x, if x == op then own + [u] else own, home)
  {
    assert (current + [Event(op, u)])[..|current|] == current;
  }


  /** Recovery from states[i] finds the first found[i] groups. */
  ghost predicate Chains(states: seq<Image>, found: seq<nat>, r: Region, g: Geometry, v: Volume, groups: seq<seq<Event>>)
    requires |found| == |states|
  {
    forall i | 0 <= i < |states| :: found[i] <= |groups| && Recoverable(states[i], r, g, AfterGroups(v, groups[..found[i]]))
  }

  /** Recovery can start from the card, and finds a volume however often it is cut off and started over. */
  ghost predicate Recoverable(d: Image, r: Region, g: Geometry, v: Volume) {
    HeaderOk(d, r) && forall ds: seq<Image> | ds != [] && ds[0] == d && RestartChain(ds, r) :: Finds(ds, r, g, v)
  }

  lemma AtomicStates(states: seq<Image>, switch: nat, r: Region, g: Geometry, was: Volume, becomes: Volume)
    requires Atomic(states, switch, r, g, was, becomes)
    ensures forall i | 0 <= i < |states| :: Recoverable(states[i], r, g, if i < switch then was else becomes)
  {
    hide HeaderOk, RestartChain, Finds;
  }

  lemma FirstChain(d: Image, r: Region, g: Geometry, v: Volume)
    requires Atomic([d], 1, r, g, v, v)
    ensures Chains([d], [0], r, g, v, [])
  {
    hide Recoverable;
    AtomicStates([d], 1, r, g, v, v);
    assert [d][0] == d;
  }

  lemma NoEvents(g: Geometry, v: Volume)
    ensures AfterAll(v, UpdatesOf([])) == v && SectorsOf(BlocksOf(g, UpdatesOf([]))) == {}
  {
  }
}
