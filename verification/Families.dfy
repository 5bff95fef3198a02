/** Parents and children in kern/proc.c, and what the calls of acquiresleep, releasesleep, wait and fork
    return with: laws of every step and of every reachable state of Processes. */
module Families {
  import opened Options
  import opened Processes

  predicate Live(x: Proc) { x.state == Sleeping || x.state == Runnable || x.state == Running }

  predicate InWait(s: State, q: nat)
    requires q < |s.proc|
  {
    s.proc[q].state == Sleeping && s.proc[q].chan == ProcChan(q)
  }

  /** A slot that is free or being filled has no parent; a parent is alive, and not the process itself; only
      the two first processes have none; and who is asleep in wait has a child. */
  predicate FamilyOk(s: State, q: nat)
    requires q < |s.proc|
  {
    var x := s.proc[q];
    && (x.state == Unused || x.state == Embryo ==> x.parent == None)
    && (x.parent.Some? ==> x.parent.value < |s.proc| && x.parent.value != q && Live(s.proc[x.parent.value]))
    && (q >= 2 && x.state != Unused && x.state != Embryo ==> x.parent.Some?)
    && (InWait(s, q) ==> HasChild(s, q))
  }

  ghost predicate FamiliesOk(s: State, init: nat) {
    && init < |s.proc| && Live(s.proc[init]) && s.proc[init].parent == None
    && forall q | 0 <= q < |s.proc| :: FamilyOk(s, q)
  }

  // Every step keeps it

  /** A process as its family sees it, the way to the end of its sleep left out. */
  predicate Alike(x: Proc, y: Proc) { y.parent == x.parent && (Live(y) <==> Live(x)) && (!Live(x) ==> y.state == x.state) }

  predicate Special(x: Step) { x.ExitNow? || x.Reap? || x.Make? || x.Start? || x.Abort? }

  predicate PlainFor(s: State, s': State, q: nat)
    requires q < |s.proc| == |s'.proc|
  {
    Alike(s.proc[q], s'.proc[q]) && (InWait(s', q) ==> InWait(s, q) || HasChild(s, q))
  }

  lemma PlainKeeps(s: State, s': State, init: nat)
    requires FamiliesOk(s, init) && |s'.proc| == |s.proc| && forall q | 0 <= q < |s.proc| :: PlainFor(s, s', q)
    ensures FamiliesOk(s', init)
  {
    forall q | 0 <= q < |s'.proc| ensures FamilyOk(s', q) {
      assert FamilyOk(s, q) && PlainFor(s, s', q);
      if s.proc[q].parent.Some? {
        assert PlainFor(s, s', s.proc[q].parent.value);
      }
      if InWait(s', q) {
        ChildStays(s, s', q);
      }
    }
    assert PlainFor(s, s', init);
  }

  lemma ChildStays(s: State, s': State, p: nat)
    requires HasChild(s, p) && |s'.proc| == |s.proc| && forall q | 0 <= q < |s.proc| :: PlainFor(s, s', q)
    ensures HasChild(s', p)
  {
    var q :| 0 <= q < |s.proc| && s.proc[q].parent == Some(p);
    assert PlainFor(s, s', q);
    assert s'.proc[q].parent == Some(p);
  }

  lemma PlainStep(s: State, init: nat, x: Step, q: nat)
    requires Inv(s) && Enabled(s, init, x) && !Special(x) && q < |s.proc|
    ensures |After(s, init, x).proc| == |s.proc| && PlainFor(s, After(s, init, x), q)
  {
    hide Inv, After, Enabled, LockEnabled, TableEnabled, OtherEnabled, CpuEnabled, PlainFor;
    if IsLockStep(x) {
      PlainLock(s, init, x, q);
    } else if IsTableStep(x) {
      PlainTable(s, init, x, q);
    } else if IsOtherStep(x) {
      PlainOther(s, init, x, q);
    } else {
      PlainCpu(s, init, x, q);
    }
  }

  lemma PlainLock(s: State, init: nat, x: Step, q: nat)
    requires IsLockStep(x) && Enabled(s, init, x) && q < |s.proc|
    ensures |After(s, init, x).proc| == |s.proc| && PlainFor(s, After(s, init, x), q)
  {
    hide HasChild;
  }

  lemma PlainTable(s: State, init: nat, x: Step, q: nat)
    requires Inv(s) && IsTableStep(x) && Enabled(s, init, x) && q < |s.proc|
    ensures |After(s, init, x).proc| == |s.proc| && PlainFor(s, After(s, init, x), q)
  {
    hide HasChild, NoZombieChild, HoldsOk, WakeOk, ChildOk, CpuOk, LockOk;
    assert PlaceOk(s, x.p);
  }

  lemma PlainOther(s: State, init: nat, x: Step, q: nat)
    requires IsOtherStep(x) && !Special(x) && Enabled(s, init, x) && q < |s.proc|
    ensures |After(s, init, x).proc| == |s.proc| && PlainFor(s, After(s, init, x), q)
  {
    hide HasChild;
  }

  lemma PlainCpu(s: State, init: nat, x: Step, q: nat)
    requires !IsLockStep(x) && !IsTableStep(x) && !IsOtherStep(x) && Enabled(s, init, x) && q < |s.proc|
    ensures |After(s, init, x).proc| == |s.proc| && PlainFor(s, After(s, init, x), q)
  {
    hide HasChild;
  }

  /** exit hands the children to init. */
  lemma ExitFamilies(s: State, init: nat, p: nat)
    requires Inv(s) && InitOk(s, init) && FamiliesOk(s, init) && Enabled(s, init, ExitNow(p))
    ensures FamiliesOk(After(s, init, ExitNow(p)), init)
  {
    hide HoldsOk, WakeOk, ChildOk, CpuOk, LockOk, HasChild, FamilyOk, Inv, InitOk;
    var s' := After(s, init, ExitNow(p));
    ExitedOther(s, init, p);
    forall q | 0 <= q < |s'.proc| ensures FamilyOk(s', q) {
      ExitFamily(s, init, p, q);
    }
    assert Exited(s, s', init, p, init);
  }

  /** What the exit of p makes of process q. */
  predicate Exited(s: State, s': State, init: nat, p: nat, q: nat)
    requires q < |s.proc| == |s'.proc|
  {
    && s'.proc[q].parent == (if s.proc[q].parent == Some(p) then Some(init) else s.proc[q].parent)
    && (if q == p then s'.proc[q].state == Zombie && s.proc[q].state == Running
        else (Live(s'.proc[q]) <==> Live(s.proc[q])) && (!Live(s.proc[q]) ==> s'.proc[q].state == s.proc[q].state)
             && (InWait(s', q) ==> InWait(s, q)))
  }

  lemma ExitedOther(s: State, init: nat, p: nat)
    requires Inv(s) && InitOk(s, init) && Enabled(s, init, ExitNow(p))
    ensures
      var s' := After(s, init, ExitNow(p));
      |s'.proc| == |s.proc| && p < |s.proc| && p != init && forall q | 0 <= q < |s.proc| :: Exited(s, s', init, p, q)
  {
    hide HoldsOk, WakeOk, ChildOk, CpuOk, LockOk;
    assert PlaceOk(s, p) && SelfParentOk(s, init, p);
  }

  lemma ExitFamily(s: State, init: nat, p: nat, q: nat)
    requires FamiliesOk(s, init) && Enabled(s, init, ExitNow(p)) && q < |s.proc| && p < |s.proc| && p != init
    requires var s' := After(s, init, ExitNow(p)); |s'.proc| == |s.proc| && forall r | 0 <= r < |s.proc| :: Exited(s, s', init, p, r)
    ensures FamilyOk(After(s, init, ExitNow(p)), q)
  {
    hide After, Enabled, OtherEnabled;
    var s' := After(s, init, ExitNow(p));
    assert FamilyOk(s, q) && FamilyOk(s, init) && Exited(s, s', init, p, q) && Exited(s, s', init, p, init);
    if s.proc[q].parent.Some? {
      assert Exited(s, s', init, p, s.proc[q].parent.value);
    }
    if InWait(s', q) {
      var k :| 0 <= k < |s.proc| && s.proc[k].parent == Some(q);
      assert Exited(s, s', init, p, k);
      assert s'.proc[k].parent == Some(q);
    }
  }

  /** What the taking, filling or freeing of slot q0 makes of process q. */
  predicate SlotOnly(s: State, s': State, q0: nat, q: nat)
    requires q < |s.proc| == |s'.proc|
  {
    q == q0 || (s'.proc[q].parent == s.proc[q].parent && s'.proc[q].state == s.proc[q].state && s'.proc[q].chan == s.proc[q].chan)
  }

  function SlotOf(s: State, x: Step): nat
    requires x.Reap? || x.Make? || ((x.Start? || x.Abort?) && x.p < |s.proc| && s.proc[x.p].pc.Fill?)
  {
    if x.Reap? || x.Make? then x.q else s.proc[x.p].pc.q
  }

  /** The slot of a step, which no process has for a parent before or after, and what it has for one. */
  lemma SlotMoves(s: State, init: nat, x: Step)
    requires Inv(s) && FamiliesOk(s, init) && Enabled(s, init, x) && (x.Reap? || x.Make? || x.Start? || x.Abort?)
    ensures
      var s', q0 := After(s, init, x), SlotOf(s, x);
      && |s'.proc| == |s.proc| && q0 < |s.proc| && x.p < |s.proc| && q0 != x.p && s.proc[x.p].state == Running
      && !Live(s.proc[q0]) && (s.proc[q0].parent == None || s.proc[q0].parent == Some(x.p))
      && (s'.proc[q0].parent == None || (s'.proc[q0].parent == Some(x.p) && Live(s'.proc[q0])))
      && s'.proc[q0].state != Sleeping && s'.proc[q0].state != Zombie && (Live(s'.proc[q0]) ==> s'.proc[q0].parent == Some(x.p))
  {
    hide WakeOk, ChildOk, CpuOk, LockOk, HasChild, AfterLock, AfterTableStep, AfterCpu, LockEnabled, TableEnabled, CpuEnabled;
    assert PlaceOk(s, x.p) && HoldsOk(s, x.p) && FamilyOk(s, SlotOf(s, x));
  }

  lemma SlotAlone(s: State, init: nat, x: Step, q: nat)
    requires Enabled(s, init, x) && (x.Reap? || x.Make? || x.Start? || x.Abort?) && q < |s.proc|
    ensures |After(s, init, x).proc| == |s.proc| && SlotOnly(s, After(s, init, x), SlotOf(s, x), q)
  {
    hide AfterLock, AfterTableStep, AfterCpu, LockEnabled, TableEnabled, CpuEnabled;
  }

  /** One slot changes hands. */
  lemma SlotFamilies(s: State, init: nat, x: Step)
    requires Inv(s) && FamiliesOk(s, init) && Enabled(s, init, x) && (x.Reap? || x.Make? || x.Start? || x.Abort?)
    ensures FamiliesOk(After(s, init, x), init)
  {
    hide Inv, HasChild, After, FamilyOk;
    SlotMoves(s, init, x);
    var s', q0 := After(s, init, x), SlotOf(s, x);
    forall q | 0 <= q < |s.proc| ensures SlotOnly(s, s', q0, q) {
      SlotAlone(s, init, x, q);
    }
    assert SlotOnly(s, s', q0, init);
    forall q | 0 <= q < |s'.proc| ensures FamilyOk(s', q) {
      SlotFamily(s, s', x.p, q0, q);
    }
  }

  lemma SlotFamily(s: State, s': State, p: nat, q0: nat, q: nat)
    requires q0 < |s.proc| == |s'.proc| && p < |s.proc| && q0 != p && q < |s.proc| && s.proc[p].state == Running
    requires !Live(s.proc[q0]) && (s.proc[q0].parent == None || s.proc[q0].parent == Some(p))
    requires s'.proc[q0].parent == None || (s'.proc[q0].parent == Some(p) && Live(s'.proc[q0]))
    requires s'.proc[q0].state != Sleeping && s'.proc[q0].state != Zombie && (Live(s'.proc[q0]) ==> s'.proc[q0].parent == Some(p))
    requires forall r | 0 <= r < |s.proc| :: FamilyOk(s, r) && SlotOnly(s, s', q0, r)
    ensures FamilyOk(s', q)
  {
    hide HasChild;
    assert FamilyOk(s, q) && SlotOnly(s, s', q0, q) && SlotOnly(s, s', q0, p);
    if s.proc[q].parent.Some? {
      assert SlotOnly(s, s', q0, s.proc[q].parent.value);
    }
    if InWait(s', q) {
      forall k | 0 <= k < |s.proc| && k != q0 ensures s'.proc[k].parent == s.proc[k].parent {
        assert SlotOnly(s, s', q0, k);
      }
      OtherChild(s, s', q, q0);
    }
  }

  lemma OtherChild(s: State, s': State, q: nat, q0: nat)
    requires HasChild(s, q) && q0 < |s.proc| == |s'.proc| && s.proc[q0].parent != Some(q)
    requires forall k | 0 <= k < |s.proc| && k != q0 :: s'.proc[k].parent == s.proc[k].parent
    ensures HasChild(s', q)
  {
    var k :| 0 <= k < |s.proc| && s.proc[k].parent == Some(q);
    assert s'.proc[k].parent == Some(q);
  }

  lemma FamiliesStep(s: State, init: nat, x: Step)
    requires Inv(s) && InitOk(s, init) && FamiliesOk(s, init) && Enabled(s, init, x)
    ensures FamiliesOk(After(s, init, x), init)
  {
    hide Inv, InitOk, FamiliesOk, After, Enabled, PlainFor;
    if x.ExitNow? {
      ExitFamilies(s, init, x.p);
    } else if Special(x) {
      SlotFamilies(s, init, x);
    } else {
      forall q | 0 <= q < |s.proc| ensures |After(s, init, x).proc| == |s.proc| && PlainFor(s, After(s, init, x), q) {
        PlainStep(s, init, x, q);
      }
      Somebody(s, init);
      PlainStep(s, init, x, init);
      PlainKeeps(s, After(s, init, x), init);
    }
  }

  lemma Somebody(s: State, init: nat)
    requires FamiliesOk(s, init)
    ensures init < |s.proc|
  {
  }

  lemma {:induction false} FamiliesRun(s: State, xs: seq<Step>, s': State)
    requires Inv(s) && InitOk(s, INIT) && FamiliesOk(s, INIT) && Leads(s, xs, s')
    ensures FamiliesOk(s', INIT)
    decreases |xs|
  {
    hide Inv, InitOk, FamiliesOk, After, Enabled;
    if xs != [] {
      StepKeeps(s, INIT, xs[0]);
      FamiliesStep(s, INIT, xs[0]);
      FamiliesRun(After(s, INIT, xs[0]), xs[1..], s');
    }
  }

  lemma FamiliesAtFirst(procs: nat, cpus: nat, locks: nat)
    requires procs >= 2
    ensures FamiliesOk(Initial(procs, cpus, locks), INIT)
  {
  }

  lemma FamiliesReachable(s: State)
    requires Reachable(s)
    ensures FamiliesOk(s, INIT)
  {
    hide Inv, InitOk, FamiliesOk, Initial;
    var procs: nat, cpus: nat, locks: nat, xs: seq<Step> :| procs >= 2 && Leads(Initial(procs, cpus, locks), xs, s);
    InitialOk(procs, cpus, locks);
    FamiliesAtFirst(procs, cpus, locks);
    FamiliesRun(Initial(procs, cpus, locks), xs, s);
  }

  // What holds in every reachable state

  /** Every process but the two first has a parent, which is neither free nor a zombie: exit leaves no orphan. */
  lemma ParentsLive(s: State, q: nat)
    requires Reachable(s) && 2 <= q < |s.proc| && s.proc[q].state != Unused && s.proc[q].state != Embryo
    ensures s.proc[q].parent.Some? && s.proc[q].parent.value < |s.proc| && s.proc[q].parent.value != q
    ensures s.proc[s.proc[q].parent.value].state in {Sleeping, Runnable, Running}
  {
    hide Reachable;
    FamiliesReachable(s);
    assert FamilyOk(s, q);
  }

  /** Who is asleep in wait has a child, and none of its children is a zombie: there is one to wait for. */
  lemma WaitsForChild(s: State, p: nat)
    requires Reachable(s) && p < |s.proc| && s.proc[p].state == Sleeping && s.proc[p].chan == ProcChan(p)
    ensures exists q :: 0 <= q < |s.proc| && s.proc[q].parent == Some(p) && s.proc[q].state in {Sleeping, Runnable, Running}
  {
    hide Reachable;
    FamiliesReachable(s);
    WaitSleepsForReason(s, p);
    assert FamilyOk(s, p);
    var q :| 0 <= q < |s.proc| && s.proc[q].parent == Some(p);
    assert FamilyOk(s, q);
  }

  /** Pids tell processes apart, and none of them is 0. */
  lemma PidsDiffer(s: State, p: nat, q: nat)
    requires Reachable(s) && p < |s.proc| && q < |s.proc| && s.proc[p].state != Unused && s.proc[q].state != Unused
    ensures s.proc[p].pid != 0 && (s.proc[p].pid == s.proc[q].pid ==> p == q)
  {
    hide Reachable, PlaceOk, WakeOk, ChildOk, CpuOk, LockOk;
    ReachableOk(s);
    assert HoldsOk(s, p) && HoldsOk(s, q);
  }

  // What every step does

  /** A zombie goes away in one way: its own parent finds it in wait, and its slot is free then. */
  lemma OnlyParentReaps(s: State, x: Step, q: nat)
    requires Reachable(s) && Enabled(s, INIT, x) && q < |s.proc| && s.proc[q].state == Zombie
    ensures
      var s' := After(s, INIT, x);
      && |s'.proc| == |s.proc|
      && (s'.proc[q].state != Zombie ==>
            && x.Reap? && x.q == q && s.proc[q].parent == Some(x.p) && s.proc[x.p].pc == WaitScan
            && s'.proc[q].state == Unused && s'.proc[q].pid == 0 && s'.proc[q].parent == None && !s'.proc[q].kstack)
  {
    hide Reachable, After, Inv, InitOk, Enabled;
    ReachableOk(s);
    if x.ExitNow? {
      ExitedOther(s, INIT, x.p);
      assert Exited(s, After(s, INIT, x), INIT, x.p, q);
    } else if Special(x) {
      SlotChange(s, x, q);
    } else {
      PlainStep(s, INIT, x, q);
    }
  }

  lemma SlotChange(s: State, x: Step, q: nat)
    requires Inv(s) && Enabled(s, INIT, x) && (x.Reap? || x.Make? || x.Start? || x.Abort?) && q < |s.proc|
    ensures
      var s' := After(s, INIT, x);
      && |s'.proc| == |s.proc|
      && (s'.proc[q].state != s.proc[q].state ==>
            match s.proc[q].state
            case Zombie =>
              && x.Reap? && x.q == q && s.proc[q].parent == Some(x.p) && s.proc[x.p].pc == WaitScan
              && s'.proc[q].state == Unused && s'.proc[q].pid == 0 && s'.proc[q].parent == None && !s'.proc[q].kstack
            case Unused => x.Make? && s'.proc[q].state == Embryo && s'.proc[q].maker == x.p
            case Embryo =>
              && s.proc[q].maker == x.p
              && if x.Start? then s'.proc[q].state == Runnable && s'.proc[q].parent == Some(x.p)
                 else x.Abort? && s'.proc[q].state == Unused && !s'.proc[q].kstack
            case _ => false)
  {
    hide WakeOk, ChildOk, CpuOk, LockOk, AfterLock, AfterTableStep, AfterCpu, LockEnabled, TableEnabled, CpuEnabled;
    assert PlaceOk(s, x.p) && HoldsOk(s, x.p);
  }

  /** A slot is filled by one fork from beginning to end, and the process that comes of it is the child of
      the one that called fork. */
  lemma ForkedByParent(s: State, x: Step, q: nat)
    requires Reachable(s) && Enabled(s, INIT, x) && q < |s.proc| && s.proc[q].state == Embryo
    ensures
      var s' := After(s, INIT, x);
      && |s'.proc| == |s.proc|
      && (s'.proc[q].state != Embryo ==>
            && s'.proc[q].state in {Runnable, Unused} && s.proc[q].maker == x.p
            && (s'.proc[q].state == Runnable ==> s'.proc[q].parent == Some(s.proc[q].maker)))
  {
    hide Reachable, After, Inv, InitOk, Enabled;
    ReachableOk(s);
    if x.ExitNow? {
      ExitedOther(s, INIT, x.p);
      assert Exited(s, After(s, INIT, x), INIT, x.p, q);
    } else if Special(x) {
      SlotChange(s, x, q);
    } else {
      PlainStep(s, INIT, x, q);
    }
  }

  predicate InAcquire(pc: Pc, m: nat) {
    || pc == AcqSpin(m) || pc == AcqTest(m) || pc == SleepPt(m) || pc == SleepFree(m) || pc == SleepSet(m)
    || pc == Switch(Sleep(m)) || pc == Resume(Sleep(m)) || pc == AcqFree(m)
  }

  /** acquiresleep, however often it slept, comes back with the lock: locked, and with the pid of the caller. */
  lemma AcquireReturns(s: State, x: Step, p: nat, m: nat)
    requires Reachable(s) && Enabled(s, INIT, x) && p < |s.proc| && s.proc[p].state != Unused && InAcquire(s.proc[p].pc, m)
    ensures
      var s' := After(s, INIT, x);
      && |s'.proc| == |s.proc| && |s'.lock| == |s.lock|
      && (!InAcquire(s'.proc[p].pc, m) ==>
            && s'.proc[p].pc == Idle && m in s'.proc[p].held
            && m < |s'.lock| && s'.lock[m].locked && s'.lock[m].pid == s'.proc[p].pid)
  {
    hide Reachable, Inv, InitOk, After, Enabled, InAcquire;
    ReachableOk(s);
    AcquireStep(s, x, p, m);
    StepKeeps(s, INIT, x);
    if m in After(s, INIT, x).proc[p].held {
      AcquiredLocked(After(s, INIT, x), p, m);
    }
  }

  lemma AcquiredLocked(s: State, p: nat, m: nat)
    requires Inv(s) && p < |s.proc| && m in s.proc[p].held
    ensures m < |s.lock| && s.lock[m].locked && s.lock[m].pid == s.proc[p].pid
  {
    assert HoldsOk(s, p);
  }

  /** Where p is after a step, as far as acquiresleep goes. */
  predicate Acquires(s: State, s': State, p: nat, m: nat)
    requires p < |s.proc|
  {
    && |s'.proc| == |s.proc| && |s'.lock| == |s.lock|
    && (InAcquire(s'.proc[p].pc, m) || (s'.proc[p].pc == Idle && m in s'.proc[p].held))
  }

  lemma AcquireStep(s: State, x: Step, p: nat, m: nat)
    requires Inv(s) && Enabled(s, INIT, x) && p < |s.proc| && s.proc[p].state != Unused && InAcquire(s.proc[p].pc, m)
    ensures Acquires(s, After(s, INIT, x), p, m)
  {
    hide Inv, LockEnabled, TableEnabled, OtherEnabled, CpuEnabled, AfterLock, AfterTableStep, AfterOther, AfterCpu, Acquires, InAcquire;
    if IsLockStep(x) {
      AcquireLock(s, x, p, m);
    } else if IsTableStep(x) {
      AcquireTable(s, x, p, m);
    } else if IsOtherStep(x) {
      AcquireOther(s, x, p, m);
    } else {
      AcquireCpu(s, x, p, m);
    }
  }

  lemma AcquireLock(s: State, x: Step, p: nat, m: nat)
    requires Inv(s) && IsLockStep(x) && LockEnabled(s, x) && p < |s.proc| && InAcquire(s.proc[p].pc, m)
    ensures Acquires(s, AfterLock(s, x), p, m)
  {
    hide WakeOk, ChildOk, CpuOk, LockOk, PlaceOk;
    assert HoldsOk(s, p);
  }

  lemma AcquireTable(s: State, x: Step, p: nat, m: nat)
    requires IsTableStep(x) && TableEnabled(s, INIT, x) && p < |s.proc| && InAcquire(s.proc[p].pc, m)
    ensures Acquires(s, AfterTableStep(s, INIT, x), p, m)
  {
    hide HasChild, NoZombieChild;
  }

  lemma AcquireOther(s: State, x: Step, p: nat, m: nat)
    requires IsOtherStep(x) && OtherEnabled(s, x) && p < |s.proc| && s.proc[p].state != Unused && InAcquire(s.proc[p].pc, m)
    ensures Acquires(s, AfterOther(s, INIT, x), p, m)
  {
  }

  lemma AcquireCpu(s: State, x: Step, p: nat, m: nat)
    requires CpuEnabled(s, x) && p < |s.proc| && InAcquire(s.proc[p].pc, m)
    ensures Acquires(s, AfterCpu(s, x), p, m)
  {
  }
}
