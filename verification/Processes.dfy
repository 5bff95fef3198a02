/** The kernel side of processes: the scheduler, fork, exit and wait of kern/proc.c, sleep and wakeup,
    and sleep locks (kern/sleeplock.c), as steps of several CPUs.  A spin lock (kern/spinlock.c) is
    taken in one step when it is free.  swtch is one step too: the table lock stays with the CPU. */
module Processes {
  import opened Options

  datatype ProcState = Unused | Embryo | Sleeping | Runnable | Running | Zombie

  /** What a process sleeps on: a sleep lock, or itself in wait. */
  datatype Chan = NoChan | LockChan(m: nat) | ProcChan(p: nat)

  /** Why a process went through sched. */
  datatype Reason = Sleep(m: nat) | Wait | Run | Exit

  /** Where a process is in the kernel. */
  datatype Pc =
    | Idle                                                    // anywhere else, no spin lock held
    | AcqSpin(m: nat) | AcqTest(m: nat) | AcqFree(m: nat)     // acquiresleep
    | SleepPt(m: nat) | SleepFree(m: nat) | SleepSet(m: nat)  // sleep, called by acquiresleep
    | RelSpin(m: nat) | RelClear(m: nat) | RelPt(m: nat)      // releasesleep, and wakeup
    | RelWake(m: nat) | RelPtFree(m: nat) | RelFree(m: nat)
    | YieldPt | YieldSet | WaitPt | WaitScan | ExitPt | ExitSet
    | AllocPt | AllocScan | AllocFree(q: nat) | Fill(q: nat)  // fork
    | PtFree                                                  // releasing the table lock, and nothing more
    | Switch(why: Reason)                                     // in sched, before swtch
    | Resume(why: Reason)                                     // in sched, behind swtch

  /** on is the CPU that runs on the kernel stack of the process; held are the sleep locks between
      acquiresleep and releasesleep; maker is the process whose fork made this one. */
  datatype Proc = Proc(state: ProcState, pid: nat, chan: Chan, parent: Option<nat>, kstack: bool,
                       pc: Pc, on: Option<nat>, held: set<nat>, maker: nat)

  /** Where a CPU is in scheduler(); Away while it runs a process. */
  datatype SchedPc = Acquire | Scan | Away | Back | Release

  datatype Cpu = Cpu(proc: Option<nat>, pc: SchedPc)

  /** spin is the CPU that holds the spin lock inside; owner is the process that took the lock last. */
  datatype SleepLock = SleepLock(spin: Option<nat>, locked: bool, pid: nat, owner: nat)

  /** slots lists the slot of every pid given out so far, beginning with pid 0. */
  datatype State = State(proc: seq<Proc>, cpu: seq<Cpu>, lock: seq<SleepLock>, table: Option<nat>, slots: seq<nat>)

  // What a program counter says about locks

  function SpinOf(pc: Pc): Option<nat> {
    match pc
    case AcqTest(m) => Some(m)
    case AcqFree(m) => Some(m)
    case SleepPt(m) => Some(m)
    case SleepFree(m) => Some(m)
    case RelClear(m) => Some(m)
    case RelPt(m) => Some(m)
    case RelWake(m) => Some(m)
    case RelPtFree(m) => Some(m)
    case RelFree(m) => Some(m)
    case _ => None
  }

  predicate HoldsTable(pc: Pc) {
    pc.SleepFree? || pc.SleepSet? || pc.RelWake? || pc.RelPtFree? || pc.YieldSet? || pc.WaitScan? || pc.ExitSet?
    || pc.AllocScan? || pc.AllocFree? || pc.PtFree? || pc.Switch? || pc.Resume?
  }

  predicate CpuHoldsTable(s: State, c: nat)
    requires c < |s.cpu|
  {
    match s.cpu[c].pc
    case Acquire => false
    case Away => s.cpu[c].proc.Some? && s.cpu[c].proc.value < |s.proc| && HoldsTable(s.proc[s.cpu[c].proc.value].pc)
    case _ => true
  }

  function StateOf(why: Reason): ProcState {
    match why
    case Sleep(_) => Sleeping
    case Wait => Sleeping
    case Run => Runnable
    case Exit => Zombie
  }

  function ChanOf(why: Reason, p: nat): Chan {
    match why
    case Sleep(m) => LockChan(m)
    case Wait => ProcChan(p)
    case _ => NoChan
  }

  /** The process is on its way to sleep for lock m, or sleeps. */
  predicate Waits(x: Proc, m: nat) {
    x.pc == SleepPt(m) || x.pc == SleepFree(m) || x.pc == SleepSet(m)
    || (x.state == Sleeping && (x.pc == Switch(Sleep(m)) || x.pc == Resume(Sleep(m))))
  }

  /** The lock was cleared, and its sleepers are about to be woken. */
  predicate WakePending(s: State, m: nat)
    requires m < |s.lock|
  {
    s.lock[m].spin.Some? && var c := s.lock[m].spin.value;
    c < |s.cpu| && s.cpu[c].pc == Away && s.cpu[c].proc.Some? && s.cpu[c].proc.value < |s.proc| &&
    var pc := s.proc[s.cpu[c].proc.value].pc;
    pc == RelPt(m) || pc == RelWake(m)
  }

  // The invariant

  /** Where a process is fits its state. */
  predicate PlaceOk(s: State, p: nat)
    requires p < |s.proc|
  {
    var x := s.proc[p];
    match x.on
    case Some(c) =>
      && c < |s.cpu| && s.cpu[c] == Cpu(Some(p), Away)
      && if x.pc.Switch? then x.state == StateOf(x.pc.why) && (x.state == Sleeping ==> x.chan == ChanOf(x.pc.why, p))
         else x.state == Running && (x.pc.Resume? ==> x.pc.why != Exit)
    case None =>
      match x.state
      case Unused => true
      case Embryo => x.pc == Resume(Run)
      case Sleeping => (x.pc == Resume(Wait) || (x.pc.Resume? && x.pc.why.Sleep?)) && x.chan == ChanOf(x.pc.why, p)
      case Runnable => x.pc.Resume? && x.pc.why != Exit
      case Running => false
      case Zombie => x.pc == Resume(Exit)
  }

  /** The sleep locks that a process holds or is busy with. */
  predicate HoldsOk(s: State, p: nat)
    requires p < |s.proc|
  {
    var x := s.proc[p];
    && (x.state != Unused ==> x.kstack && 0 < x.pid < |s.slots| && s.slots[x.pid] == p)
    && (forall m | m in x.held :: m < |s.lock| && s.lock[m].locked && s.lock[m].owner == p && s.lock[m].pid == x.pid)
    && ((x.pc.RelSpin? || x.pc.RelClear? || x.pc.AcqFree?) && x.on.Some? ==> x.pc.m in x.held)
    && (x.state == Unused || x.state == Embryo || x.state == Zombie || x.pc.ExitPt? || x.pc.ExitSet? ==> x.held == {})
    && (x.pc.AcqSpin? || x.pc.SleepSet? ==> x.pc.m < |s.lock|)
    && ((x.pc.Switch? || x.pc.Resume?) && x.pc.why.Sleep? ==> x.pc.why.m < |s.lock|)
    && ((x.pc.AllocFree? || x.pc.Fill?) && x.on.Some? ==>
          x.pc.q < |s.proc| && s.proc[x.pc.q].state == Embryo && s.proc[x.pc.q].maker == p)
  }

  /** A process that waits for a lock waits while it is locked, or while the wakeup is on its way. */
  predicate WakeOk(s: State, p: nat, m: nat)
    requires p < |s.proc| && m < |s.lock|
  {
    s.proc[p].state != Unused && Waits(s.proc[p], m) ==> s.lock[m].locked || WakePending(s, m)
  }

  /** A process asleep in wait has no zombie child. */
  predicate ChildOk(s: State, p: nat, q: nat)
    requires p < |s.proc| && q < |s.proc|
  {
    s.proc[p].state == Sleeping && s.proc[p].chan == ProcChan(p) && s.proc[q].parent == Some(p) ==> s.proc[q].state != Zombie
  }

  predicate CpuOk(s: State, c: nat)
    requires c < |s.cpu|
  {
    && (s.table == Some(c) <==> CpuHoldsTable(s, c))
    && (s.cpu[c].pc == Away ==>
          && s.cpu[c].proc.Some? && s.cpu[c].proc.value < |s.proc|
          && var x := s.proc[s.cpu[c].proc.value];
          x.on == Some(c) && (SpinOf(x.pc).Some? ==> SpinOf(x.pc).value < |s.lock| && s.lock[SpinOf(x.pc).value].spin == Some(c)))
  }

  predicate LockOk(s: State, m: nat)
    requires m < |s.lock|
  {
    && (s.lock[m].spin.Some? ==>
          var c := s.lock[m].spin.value;
          && c < |s.cpu| && s.cpu[c].pc == Away && s.cpu[c].proc.Some? && s.cpu[c].proc.value < |s.proc|
          && SpinOf(s.proc[s.cpu[c].proc.value].pc) == Some(m))
    && (s.lock[m].locked ==> s.lock[m].owner < |s.proc| && m in s.proc[s.lock[m].owner].held)
  }

  ghost predicate Inv(s: State) {
    && (s.table.Some? ==> s.table.value < |s.cpu|)
    && (forall p | 0 <= p < |s.proc| :: PlaceOk(s, p) && HoldsOk(s, p))
    && (forall p, m | 0 <= p < |s.proc| && 0 <= m < |s.lock| :: WakeOk(s, p, m))
    && (forall p, q | 0 <= p < |s.proc| && 0 <= q < |s.proc| :: ChildOk(s, p, q))
    && (forall c | 0 <= c < |s.cpu| :: CpuOk(s, c))
    && (forall m | 0 <= m < |s.lock| :: LockOk(s, m))
  }

  // Steps

  datatype Step =
    | CpuAcquire(c: nat) | CpuPick(c: nat, p: nat) | CpuNone(c: nat) | CpuBack(c: nat) | CpuRelease(c: nat)
    | Begin(p: nat, pc: Pc)     // a call of acquiresleep, releasesleep, yield, wait, exit or fork
    | TakeSpin(p: nat) | GiveSpin(p: nat) | TakeTable(p: nat) | GiveTable(p: nat)
    | Test(p: nat)              // while (lk->locked)
    | Clear(p: nat)             // lk->locked = 0
    | WakeAll(p: nat)           // wakeup1
    | Suspend(p: nat)           // state and chan, and the call of sched
    | Swtch(p: nat)
    | Continue(p: nat)          // what follows sched
    | ExitNow(p: nat)
    | Reap(p: nat, q: nat) | NoZombie(p: nat)       // wait: a child is freed; there is none to free
    | Make(p: nat, q: nat) | NoSlot(p: nat)         // proc_alloc
    | Start(p: nat) | Abort(p: nat)                 // fork: the child is runnable; its memory could not be copied

  predicate On(s: State, p: nat) { p < |s.proc| && s.proc[p].on.Some? }

  /** What a process may call; releasesleep is called by the holder, and exit without sleep locks. */
  predicate CanCall(s: State, init: nat, p: nat, pc: Pc)
    requires p < |s.proc|
  {
    match pc
    case AcqSpin(m) => m < |s.lock|
    case RelSpin(m) => m in s.proc[p].held
    case YieldPt => true
    case WaitPt => true
    case ExitPt => p != init && s.proc[p].held == {}
    case AllocPt => true
    case _ => false
  }

  predicate NoZombieChild(s: State, p: nat) {
    forall q | 0 <= q < |s.proc| && s.proc[q].parent == Some(p) :: s.proc[q].state != Zombie
  }

  predicate HasChild(s: State, p: nat) {
    exists q :: 0 <= q < |s.proc| && s.proc[q].parent == Some(p)
  }

  predicate CpuEnabled(s: State, x: Step) {
    match x
    case CpuAcquire(c) => c < |s.cpu| && s.cpu[c].pc == Acquire && s.table == None
    case CpuPick(c, p) => c < |s.cpu| && s.cpu[c].pc == Scan && p < |s.proc| && s.proc[p].state == Runnable
    case CpuNone(c) => c < |s.cpu| && s.cpu[c].pc == Scan
    case CpuBack(c) => c < |s.cpu| && s.cpu[c].pc == Back
    case CpuRelease(c) => c < |s.cpu| && s.cpu[c].pc == Release
    case _ => false
  }

  predicate LockEnabled(s: State, x: Step)
    requires IsLockStep(x)
  {
    On(s, x.p) &&
    var pc := s.proc[x.p].pc;
    && (if x.TakeSpin? then pc.AcqSpin? || pc.RelSpin?
        else if x.GiveSpin? then pc.SleepFree? || pc.AcqFree? || pc.RelFree?
        else if x.Test? then pc.AcqTest?
        else pc.RelClear?)
    && pc.m < |s.lock| && (x.TakeSpin? ==> s.lock[pc.m].spin == None)
  }

  predicate TableEnabled(s: State, init: nat, x: Step)
    requires IsTableStep(x)
  {
    On(s, x.p) &&
    var pc := s.proc[x.p].pc;
    if x.Begin? then pc == Idle && CanCall(s, init, x.p, x.pc)
    else if x.TakeTable? then AfterTable(pc).Some? && s.table == None
    else if x.GiveTable? then pc.RelPtFree? || pc.AllocFree? || pc.PtFree?
    else if x.Suspend? then pc.SleepSet? || pc.YieldSet? || (pc.WaitScan? && NoZombieChild(s, x.p) && HasChild(s, x.p))
    else if x.Continue? then pc.Resume? && pc.why != Exit
    else if x.NoZombie? then pc.WaitScan? && NoZombieChild(s, x.p)
    else pc.AllocScan? && forall q | 0 <= q < |s.proc| :: s.proc[q].state != Unused
  }

  predicate OtherEnabled(s: State, x: Step)
    requires IsOtherStep(x)
  {
    On(s, x.p) &&
    var pc := s.proc[x.p].pc;
    if x.WakeAll? then pc.RelWake?
    else if x.Swtch? then pc.Switch? && s.proc[x.p].on.value < |s.cpu|
    else if x.ExitNow? then pc.ExitSet?
    else if x.Reap? then pc.WaitScan? && x.q < |s.proc| && x.q != x.p && s.proc[x.q].parent == Some(x.p) && s.proc[x.q].state == Zombie
    else if x.Make? then pc.AllocScan? && x.q < |s.proc| && x.q != x.p && s.proc[x.q].state == Unused
    else pc.Fill? && pc.q < |s.proc| && pc.q != x.p
  }

  predicate IsLockStep(x: Step) { x.TakeSpin? || x.GiveSpin? || x.Test? || x.Clear? }

  predicate IsTableStep(x: Step) {
    x.Begin? || x.TakeTable? || x.GiveTable? || x.Suspend? || x.Continue? || x.NoZombie? || x.NoSlot?
  }

  predicate IsOtherStep(x: Step) {
    x.WakeAll? || x.Swtch? || x.ExitNow? || x.Reap? || x.Make? || x.Start? || x.Abort?
  }

  /** init is the process that orphans are given to. */
  predicate Enabled(s: State, init: nat, x: Step) {
    if IsLockStep(x) then LockEnabled(s, x)
    else if IsTableStep(x) then TableEnabled(s, init, x)
    else if IsOtherStep(x) then OtherEnabled(s, x)
    else CpuEnabled(s, x)
  }

  /** Where acquiring the table lock leads. */
  function AfterTable(pc: Pc): Option<Pc> {
    match pc
    case SleepPt(m) => Some(SleepFree(m))
    case RelPt(m) => Some(RelWake(m))
    case YieldPt => Some(YieldSet)
    case WaitPt => Some(WaitScan)
    case ExitPt => Some(ExitSet)
    case AllocPt => Some(AllocScan)
    case _ => None
  }

  /** wakeup1 */
  function Woken(x: Proc, chan: Chan): Proc {
    if x.state == Sleeping && x.chan == chan then x.(state := Runnable) else x
  }

  function WokenAll(proc: seq<Proc>, chan: Chan): (r: seq<Proc>)
    ensures |r| == |proc| && forall i | 0 <= i < |r| :: r[i] == Woken(proc[i], chan)
  {
    seq(|proc|, i requires 0 <= i < |proc| => Woken(proc[i], chan))
  }

  predicate ZombieChild(proc: seq<Proc>, p: nat) {
    exists i :: 0 <= i < |proc| && proc[i].parent == Some(p) && proc[i].state == Zombie
  }

  /** What exit does to the table: the parent is woken, children go to init, which is woken if one of
      them is a zombie. */
  function Orphaned(proc: seq<Proc>, p: nat, init: nat): (r: seq<Proc>)
    requires p < |proc|
    ensures |r| == |proc|
    ensures forall i | 0 <= i < |r| ::
              r[i].parent == (if proc[i].parent == Some(p) then Some(init) else proc[i].parent)
    ensures forall i | 0 <= i < |r| ::
              r[i] == proc[i].(parent := r[i].parent,
                               state := if proc[i].state == Sleeping
                                           && ((proc[p].parent.Some? && proc[i].chan == ProcChan(proc[p].parent.value))
                                               || (ZombieChild(proc, p) && proc[i].chan == ProcChan(init)))
                                        then Runnable else proc[i].state)
  {
    var woken := if proc[p].parent.Some? then WokenAll(proc, ProcChan(proc[p].parent.value)) else proc;
    var given := seq(|woken|, i requires 0 <= i < |woken| =>
                                if woken[i].parent == Some(p) then woken[i].(parent := Some(init)) else woken[i]);
    if ZombieChild(proc, p) then WokenAll(given, ProcChan(init)) else given
  }

  function WithProc(s: State, p: nat, x: Proc): State
    requires p < |s.proc|
  {
    s.(proc := s.proc[p := x])
  }

  function Moved(s: State, p: nat, pc: Pc): State
    requires p < |s.proc|
  {
    WithProc(s, p, s.proc[p].(pc := pc))
  }

  function WithLock(s: State, m: nat, l: SleepLock): State
    requires m < |s.lock|
  {
    s.(lock := s.lock[m := l])
  }

  function AfterCpu(s: State, x: Step): State
    requires CpuEnabled(s, x)
  {
    match x
    case CpuAcquire(c) => s.(table := Some(c), cpu := s.cpu[c := s.cpu[c].(pc := Scan)])
    case CpuPick(c, p) => WithProc(s, p, s.proc[p].(state := Running, on := Some(c))).(cpu := s.cpu[c := Cpu(Some(p), Away)])
    case CpuNone(c) => s.(cpu := s.cpu[c := s.cpu[c].(pc := Release)])
    case CpuBack(c) => s.(cpu := s.cpu[c := Cpu(None, Release)])
    case CpuRelease(c) => s.(table := None, cpu := s.cpu[c := s.cpu[c].(pc := Acquire)])
  }

  function AfterLock(s: State, x: Step): State
    requires IsLockStep(x) && LockEnabled(s, x)
  {
    var p, pc := x.p, s.proc[x.p].pc;
    var m, l := pc.m, s.lock[pc.m];
    if x.TakeSpin? then WithLock(Moved(s, p, if pc.AcqSpin? then AcqTest(m) else RelClear(m)), m, l.(spin := s.proc[p].on))
    else if x.GiveSpin? then WithLock(Moved(s, p, if pc.SleepFree? then SleepSet(m) else Idle), m, l.(spin := None))
    else if x.Test? then
      if l.locked then Moved(s, p, SleepPt(m))
      else WithLock(WithProc(s, p, s.proc[p].(pc := AcqFree(m), held := s.proc[p].held + {m})),
                    m, l.(locked := true, pid := s.proc[p].pid, owner := p))
    else WithLock(WithProc(s, p, s.proc[p].(pc := RelPt(m), held := s.proc[p].held - {m})), m, l.(locked := false, pid := 0))
  }

  function AfterTableStep(s: State, init: nat, x: Step): State
    requires IsTableStep(x) && TableEnabled(s, init, x)
  {
    var p, pc := x.p, s.proc[x.p].pc;
    if x.Begin? then Moved(s, p, x.pc)
    else if x.TakeTable? then Moved(s, p, AfterTable(pc).value).(table := s.proc[p].on)
    else if x.GiveTable? then
      Moved(s, p, if pc.RelPtFree? then RelFree(pc.m) else if pc.AllocFree? then Fill(pc.q) else Idle).(table := None)
    else if x.Suspend? then
      var why := if pc.SleepSet? then Sleep(pc.m) else if pc.WaitScan? then Wait else Run;
      var chan := if why.Run? then s.proc[p].chan else ChanOf(why, p);
      WithProc(s, p, s.proc[p].(state := StateOf(why), chan := chan, pc := Switch(why)))
    else if x.Continue? then
      if pc.why.Sleep? then WithProc(s, p, s.proc[p].(chan := NoChan, pc := AcqSpin(pc.why.m))).(table := None)
      else if pc.why.Wait? then WithProc(s, p, s.proc[p].(chan := NoChan, pc := WaitScan))
      else Moved(s, p, Idle).(table := None)
    else Moved(s, p, PtFree)
  }

  function AfterOther(s: State, init: nat, x: Step): State
    requires IsOtherStep(x) && OtherEnabled(s, x)
  {
    var p, pc := x.p, s.proc[x.p].pc;
    if x.WakeAll? then Moved(s.(proc := WokenAll(s.proc, LockChan(pc.m))), p, RelPtFree(pc.m))
    else if x.Swtch? then
      var c := s.proc[p].on.value;
      WithProc(s, p, s.proc[p].(on := None, pc := Resume(pc.why))).(cpu := s.cpu[c := s.cpu[c].(pc := Back)])
    else if x.ExitNow? then
      var t := s.(proc := Orphaned(s.proc, p, init));
      WithProc(t, p, t.proc[p].(state := Zombie, pc := Switch(Exit)))
    else if x.Reap? then
      Moved(WithProc(s, x.q, s.proc[x.q].(state := Unused, pid := 0, parent := None, kstack := false)), p, PtFree)
    else if x.Make? then
      var y := Proc(Embryo, |s.slots|, s.proc[x.q].chan, s.proc[x.q].parent, true, Resume(Run), None, {}, p);
      Moved(WithProc(s, x.q, y), p, AllocFree(x.q)).(slots := s.slots + [x.q])
    else if x.Start? then Moved(WithProc(s, pc.q, s.proc[pc.q].(state := Runnable, parent := Some(p))), p, Idle)
    else Moved(WithProc(s, pc.q, s.proc[pc.q].(state := Unused, kstack := false)), p, Idle)
  }

  function After(s: State, init: nat, x: Step): State
    requires Enabled(s, init, x)
  {
    if IsLockStep(x) then AfterLock(s, x)
    else if IsTableStep(x) then AfterTableStep(s, init, x)
    else if IsOtherStep(x) then AfterOther(s, init, x)
    else AfterCpu(s, x)
  }

  // Changes that keep the invariant

  /** A CPU moves in its scheduler loop. */
  lemma CpuMoveKeeps(s: State, s': State, c: nat)
    requires Inv(s) && c < |s.cpu| == |s'.cpu| && s' == s.(table := s'.table, cpu := s.cpu[c := s'.cpu[c]])
    requires s.cpu[c].pc != Away && s'.cpu[c].pc != Away && CpuOk(s', c)
    requires s'.table == s.table || (s.table == None && s'.table == Some(c)) || (s.table == Some(c) && s'.table == None)
    ensures Inv(s')
  {
    forall q | 0 <= q < |s'.proc| ensures PlaceOk(s', q) && HoldsOk(s', q) {
      assert PlaceOk(s, q) && HoldsOk(s, q);
    }
    forall q, m | 0 <= q < |s'.proc| && 0 <= m < |s'.lock| ensures WakeOk(s', q, m) {
      assert WakeOk(s, q, m);
    }
    forall q, r | 0 <= q < |s'.proc| && 0 <= r < |s'.proc| ensures ChildOk(s', q, r) {
      assert ChildOk(s, q, r);
    }
    forall d | 0 <= d < |s'.cpu| ensures CpuOk(s', d) {
      assert CpuOk(s, d);
    }
    forall m | 0 <= m < |s'.lock| ensures LockOk(s', m) {
      assert LockOk(s, m);
    }
  }

  /** A process that has a CPU moves on; lock m is the only one that it can have to do with. */
  ghost predicate MoveOk(s: State, s': State, p: nat, m: nat) {
    && p < |s.proc| == |s'.proc| && |s'.lock| == |s.lock| && s'.cpu == s.cpu && s'.slots == s.slots
    && (forall q | 0 <= q < |s.proc| && q != p :: s'.proc[q] == s.proc[q])
    && (forall l | 0 <= l < |s.lock| && l != m :: s'.lock[l] == s.lock[l])
    && s.proc[p].on.Some? && SelfOk(s, s', p, m) && (m < |s.lock| ==> OwnLockOk(s, s', p, m))
    && (forall q | 0 <= q < |s.proc| && m < |s.lock| :: WakeOk(s', q, m))
    && (forall r | 0 <= r < |s.proc| :: ChildOk(s', p, r) && ChildOk(s', r, p))
  }

  ghost predicate SelfOk(s: State, s': State, p: nat, m: nat)
    requires p < |s.proc| == |s'.proc| && s.proc[p].on.Some?
  {
    var c, x, x' := s.proc[p].on.value, s.proc[p], s'.proc[p];
    && x'.on == x.on && x'.pid == x.pid && x'.parent == x.parent && x'.state != Embryo && x'.state != Unused
    && PlaceOk(s', p) && HoldsOk(s', p)
    && (s'.table == Some(c) <==> HoldsTable(x'.pc))
    && (s'.table == s.table || (s.table == None && s'.table == Some(c)) || (s.table == Some(c) && s'.table == None))
    && (SpinOf(x.pc).Some? ==> SpinOf(x.pc).value == m)
    && (SpinOf(x'.pc).Some? ==> SpinOf(x'.pc).value == m && m < |s'.lock| && s'.lock[m].spin == Some(c))
    && (forall l | Waits(x', l) :: l == m)
    && (forall l | l != m :: l in x'.held <==> l in x.held)
  }

  ghost predicate OwnLockOk(s: State, s': State, p: nat, m: nat)
    requires p < |s.proc| && s.proc[p].on.Some? && m < |s.lock| == |s'.lock|
  {
    var c, l, l' := s.proc[p].on.value, s.lock[m], s'.lock[m];
    && LockOk(s', m)
    && (l'.spin == l.spin || (l.spin == None && l'.spin == Some(c)) || (l.spin == Some(c) && l'.spin == None))
    && (l' == l.(spin := l'.spin) || !l.locked || l.owner == p)
  }

  lemma MoveKeeps(s: State, s': State, p: nat, m: nat)
    requires Inv(s) && MoveOk(s, s', p, m)
    ensures Inv(s')
  {
    forall q | 0 <= q < |s'.proc| ensures PlaceOk(s', q) && HoldsOk(s', q) {
      MoveHolds(s, s', p, m, q);
    }
    forall q, l | 0 <= q < |s'.proc| && 0 <= l < |s'.lock| ensures WakeOk(s', q, l) {
      MoveWake(s, s', p, m, q, l);
    }
    forall q, r | 0 <= q < |s'.proc| && 0 <= r < |s'.proc| ensures ChildOk(s', q, r) {
      assert ChildOk(s, q, r);
    }
    forall d | 0 <= d < |s'.cpu| ensures CpuOk(s', d) {
      MoveCpu(s, s', p, m, d);
    }
    forall l | 0 <= l < |s'.lock| ensures LockOk(s', l) {
      MoveLock(s, s', p, m, l);
    }
  }

  lemma MoveHolds(s: State, s': State, p: nat, m: nat, q: nat)
    requires Inv(s) && MoveOk(s, s', p, m) && q < |s.proc|
    ensures PlaceOk(s', q) && HoldsOk(s', q)
  {
    assert PlaceOk(s, q) && HoldsOk(s, q) && PlaceOk(s, p);
  }

  lemma MoveCpu(s: State, s': State, p: nat, m: nat, d: nat)
    requires Inv(s) && MoveOk(s, s', p, m) && d < |s.cpu|
    ensures CpuOk(s', d)
  {
    assert PlaceOk(s, p) && CpuOk(s, d) && CpuOk(s, s.proc[p].on.value);
  }

  lemma MoveLock(s: State, s': State, p: nat, m: nat, l: nat)
    requires Inv(s) && MoveOk(s, s', p, m) && l < |s.lock|
    ensures LockOk(s', l)
  {
    assert PlaceOk(s, p) && LockOk(s, l) && CpuOk(s, s.proc[p].on.value);
  }

  lemma MoveWake(s: State, s': State, p: nat, m: nat, q: nat, l: nat)
    requires Inv(s) && MoveOk(s, s', p, m) && q < |s.proc| && l < |s.lock|
    ensures WakeOk(s', q, l)
  {
    assert WakeOk(s, q, l) && LockOk(s, l) && PlaceOk(s, p);
    assert CpuOk(s, s.proc[p].on.value);
  }

  // Steps that only move one process

  lemma LockStepKeeps(s: State, x: Step)
    requires Inv(s) && IsLockStep(x) && LockEnabled(s, x)
    ensures Inv(AfterLock(s, x))
  {
    hide Inv, MoveOk, SelfOk, OwnLockOk, WakeOk, ChildOk, AfterLock;
    var m, s' := s.proc[x.p].pc.m, AfterLock(s, x);
    LockStepFrame(s, x);
    LockStepSelf(s, x);
    LockStepLock(s, x);
    forall q | 0 <= q < |s.proc| ensures WakeOk(s', q, m) {
      LockStepWake(s, x, q);
    }
    forall r | 0 <= r < |s.proc| ensures ChildOk(s', x.p, r) && ChildOk(s', r, x.p) {
      LockStepChild(s, x, r);
    }
    MoveParts(s, s', x.p, m);
    MoveKeeps(s, s', x.p, m);
  }

  ghost predicate Frame(s: State, s': State, p: nat, m: nat) {
    && p < |s.proc| == |s'.proc| && |s'.lock| == |s.lock| && s'.cpu == s.cpu && s'.slots == s.slots
    && (forall q | 0 <= q < |s.proc| && q != p :: s'.proc[q] == s.proc[q])
    && (forall l | 0 <= l < |s.lock| && l != m :: s'.lock[l] == s.lock[l])
    && s.proc[p].on.Some?
  }

  lemma MoveParts(s: State, s': State, p: nat, m: nat)
    requires Frame(s, s', p, m) && SelfOk(s, s', p, m) && (m < |s.lock| ==> OwnLockOk(s, s', p, m))
    requires forall q | 0 <= q < |s.proc| && m < |s.lock| :: WakeOk(s', q, m)
    requires forall r | 0 <= r < |s.proc| :: ChildOk(s', p, r) && ChildOk(s', r, p)
    ensures MoveOk(s, s', p, m)
  {
  }

  lemma LockStepFrame(s: State, x: Step)
    requires IsLockStep(x) && LockEnabled(s, x)
    ensures Frame(s, AfterLock(s, x), x.p, s.proc[x.p].pc.m)
  {
  }

  lemma LockStepSelf(s: State, x: Step)
    requires Inv(s) && IsLockStep(x) && LockEnabled(s, x)
    ensures SelfOk(s, AfterLock(s, x), x.p, s.proc[x.p].pc.m)
  {
    hide SelfOk, AfterLock, LockEnabled, Inv;
    if x.TakeSpin? || x.GiveSpin? {
      SpinSelf(s, x);
    } else {
      FlagSelf(s, x);
    }
  }

  lemma SpinSelf(s: State, x: Step)
    requires Inv(s) && (x.TakeSpin? || x.GiveSpin?) && LockEnabled(s, x)
    ensures SelfOk(s, AfterLock(s, x), x.p, s.proc[x.p].pc.m)
  {
    hide HoldsOk, WakeOk, ChildOk;
    assert PlaceOk(s, x.p) && CpuOk(s, s.proc[x.p].on.value);
    LockStepHolds(s, x);
  }

  lemma FlagSelf(s: State, x: Step)
    requires Inv(s) && (x.Test? || x.Clear?) && LockEnabled(s, x)
    ensures SelfOk(s, AfterLock(s, x), x.p, s.proc[x.p].pc.m)
  {
    hide HoldsOk, WakeOk, ChildOk;
    assert PlaceOk(s, x.p) && CpuOk(s, s.proc[x.p].on.value);
    LockStepHolds(s, x);
  }

  lemma LockStepHolds(s: State, x: Step)
    requires Inv(s) && IsLockStep(x) && LockEnabled(s, x)
    ensures HoldsOk(AfterLock(s, x), x.p)
  {
    assert PlaceOk(s, x.p) && HoldsOk(s, x.p);
  }

  lemma LockStepLock(s: State, x: Step)
    requires Inv(s) && IsLockStep(x) && LockEnabled(s, x)
    ensures OwnLockOk(s, AfterLock(s, x), x.p, s.proc[x.p].pc.m)
  {
    assert PlaceOk(s, x.p) && HoldsOk(s, x.p) && LockOk(s, s.proc[x.p].pc.m);
    assert CpuOk(s, s.proc[x.p].on.value);
  }

  lemma LockStepWake(s: State, x: Step, q: nat)
    requires Inv(s) && IsLockStep(x) && LockEnabled(s, x) && q < |s.proc|
    ensures WakeOk(AfterLock(s, x), q, s.proc[x.p].pc.m)
  {
    var m := s.proc[x.p].pc.m;
    assert WakeOk(s, q, m) && LockOk(s, m) && PlaceOk(s, q) && PlaceOk(s, x.p) && HoldsOk(s, x.p);
    assert CpuOk(s, s.proc[x.p].on.value);
  }

  lemma LockStepChild(s: State, x: Step, r: nat)
    requires Inv(s) && IsLockStep(x) && LockEnabled(s, x) && r < |s.proc|
    ensures ChildOk(AfterLock(s, x), x.p, r) && ChildOk(AfterLock(s, x), r, x.p)
  {
    assert ChildOk(s, x.p, r) && ChildOk(s, r, x.p) && PlaceOk(s, x.p);
  }

  // Steps that move one process and touch no lock but that of the table

  /** The sleep lock that a process is busy with. */
  function LockOf(s: State, x: Step): nat
    requires IsTableStep(x) && x.p < |s.proc|
  {
    var pc := if x.Begin? then x.pc else s.proc[x.p].pc;
    if SpinOf(pc).Some? then SpinOf(pc).value
    else if pc.AcqSpin? || pc.RelSpin? || pc.SleepSet? then pc.m
    else if pc.Resume? && pc.why.Sleep? then pc.why.m
    else |s.lock|
  }

  lemma TableStepKeeps(s: State, init: nat, x: Step)
    requires Inv(s) && IsTableStep(x) && TableEnabled(s, init, x)
    ensures Inv(AfterTableStep(s, init, x))
  {
    hide Inv, MoveOk, SelfOk, OwnLockOk, WakeOk, ChildOk, AfterTableStep;
    var m, s' := LockOf(s, x), AfterTableStep(s, init, x);
    TableStepFrame(s, init, x);
    TableStepSelf(s, init, x);
    if m < |s.lock| {
      TableStepLock(s, init, x);
    }
    forall q | 0 <= q < |s.proc| && m < |s.lock| ensures WakeOk(s', q, m) {
      TableStepWake(s, init, x, q);
    }
    forall r | 0 <= r < |s.proc| ensures ChildOk(s', x.p, r) && ChildOk(s', r, x.p) {
      TableStepChild(s, init, x, r);
    }
    MoveParts(s, s', x.p, m);
    MoveKeeps(s, s', x.p, m);
  }

  lemma TableStepFrame(s: State, init: nat, x: Step)
    requires IsTableStep(x) && TableEnabled(s, init, x)
    ensures Frame(s, AfterTableStep(s, init, x), x.p, LockOf(s, x)) && AfterTableStep(s, init, x).lock == s.lock
  {
  }

  lemma TableStepSelf(s: State, init: nat, x: Step)
    requires Inv(s) && IsTableStep(x) && TableEnabled(s, init, x)
    ensures SelfOk(s, AfterTableStep(s, init, x), x.p, LockOf(s, x))
  {
    hide SelfOk, AfterTableStep, TableEnabled, Inv, LockOf;
    match x
    case Suspend(_) => SchedSelf(s, init, x);
    case Continue(_) => SchedSelf(s, init, x);
    case TakeTable(_) => TableSelf(s, init, x);
    case GiveTable(_) => TableSelf(s, init, x);
    case _ => PlainSelf(s, init, x);
  }

  lemma SchedSelf(s: State, init: nat, x: Step)
    requires Inv(s) && (x.Suspend? || x.Continue?) && TableEnabled(s, init, x)
    ensures SelfOk(s, AfterTableStep(s, init, x), x.p, LockOf(s, x))
  {
    hide NoZombieChild, HasChild, HoldsOk, WakeOk, ChildOk, LockOk;
    assert PlaceOk(s, x.p) && CpuOk(s, s.proc[x.p].on.value);
    TableStepHolds(s, init, x);
  }

  lemma TableSelf(s: State, init: nat, x: Step)
    requires Inv(s) && (x.TakeTable? || x.GiveTable?) && TableEnabled(s, init, x)
    ensures SelfOk(s, AfterTableStep(s, init, x), x.p, LockOf(s, x))
  {
    hide NoZombieChild, HasChild, HoldsOk, WakeOk, ChildOk, LockOk;
    assert PlaceOk(s, x.p) && CpuOk(s, s.proc[x.p].on.value);
    TableStepHolds(s, init, x);
  }

  lemma PlainSelf(s: State, init: nat, x: Step)
    requires Inv(s) && (x.Begin? || x.NoZombie? || x.NoSlot?) && TableEnabled(s, init, x)
    ensures SelfOk(s, AfterTableStep(s, init, x), x.p, LockOf(s, x))
  {
    hide NoZombieChild, HasChild, HoldsOk, WakeOk, ChildOk, LockOk;
    assert PlaceOk(s, x.p) && CpuOk(s, s.proc[x.p].on.value);
    TableStepHolds(s, init, x);
  }

  lemma TableStepHolds(s: State, init: nat, x: Step)
    requires Inv(s) && IsTableStep(x) && TableEnabled(s, init, x)
    ensures HoldsOk(AfterTableStep(s, init, x), x.p)
  {
    hide NoZombieChild, HasChild, WakeOk, ChildOk, LockOk, CpuOk;
    assert PlaceOk(s, x.p) && HoldsOk(s, x.p);
  }

  lemma TableStepLock(s: State, init: nat, x: Step)
    requires Inv(s) && IsTableStep(x) && TableEnabled(s, init, x) && LockOf(s, x) < |s.lock|
    ensures OwnLockOk(s, AfterTableStep(s, init, x), x.p, LockOf(s, x))
  {
    hide NoZombieChild, HasChild, HoldsOk, WakeOk, ChildOk;
    assert PlaceOk(s, x.p) && LockOk(s, LockOf(s, x)) && CpuOk(s, s.proc[x.p].on.value);
  }

  lemma TableStepWake(s: State, init: nat, x: Step, q: nat)
    requires Inv(s) && IsTableStep(x) && TableEnabled(s, init, x) && q < |s.proc| && LockOf(s, x) < |s.lock|
    ensures WakeOk(AfterTableStep(s, init, x), q, LockOf(s, x))
  {
    hide HoldsOk, LockOk, CpuOk, TableEnabled, AfterTableStep, LockOf, WakeOk, Inv;
    match x
    case Suspend(_) => SchedWake(s, init, x, q);
    case Continue(_) => SchedWake(s, init, x, q);
    case TakeTable(_) => TableWake(s, init, x, q);
    case GiveTable(_) => TableWake(s, init, x, q);
    case _ => PlainWake(s, init, x, q);
  }

  lemma SchedWake(s: State, init: nat, x: Step, q: nat)
    requires Inv(s) && (x.Suspend? || x.Continue?) && TableEnabled(s, init, x) && q < |s.proc| && LockOf(s, x) < |s.lock|
    ensures WakeOk(AfterTableStep(s, init, x), q, LockOf(s, x))
  {
    hide NoZombieChild, HasChild, HoldsOk;
    var m := LockOf(s, x);
    assert WakeOk(s, q, m) && LockOk(s, m) && PlaceOk(s, x.p) && CpuOk(s, s.proc[x.p].on.value);
  }

  lemma TableWake(s: State, init: nat, x: Step, q: nat)
    requires Inv(s) && (x.TakeTable? || x.GiveTable?) && TableEnabled(s, init, x) && q < |s.proc| && LockOf(s, x) < |s.lock|
    ensures WakeOk(AfterTableStep(s, init, x), q, LockOf(s, x))
  {
    hide NoZombieChild, HasChild, HoldsOk;
    var m := LockOf(s, x);
    assert WakeOk(s, q, m) && LockOk(s, m) && PlaceOk(s, x.p) && CpuOk(s, s.proc[x.p].on.value);
  }

  lemma PlainWake(s: State, init: nat, x: Step, q: nat)
    requires Inv(s) && (x.Begin? || x.NoZombie? || x.NoSlot?) && TableEnabled(s, init, x) && q < |s.proc| && LockOf(s, x) < |s.lock|
    ensures WakeOk(AfterTableStep(s, init, x), q, LockOf(s, x))
  {
    hide NoZombieChild, HasChild, HoldsOk;
    var m := LockOf(s, x);
    assert WakeOk(s, q, m) && LockOk(s, m) && PlaceOk(s, x.p) && CpuOk(s, s.proc[x.p].on.value);
  }

  lemma TableStepChild(s: State, init: nat, x: Step, r: nat)
    requires Inv(s) && IsTableStep(x) && TableEnabled(s, init, x) && r < |s.proc|
    ensures ChildOk(AfterTableStep(s, init, x), x.p, r) && ChildOk(AfterTableStep(s, init, x), r, x.p)
  {
    hide HasChild, HoldsOk;
    assert ChildOk(s, x.p, r) && ChildOk(s, r, x.p) && PlaceOk(s, x.p);
  }

  // Steps of the CPUs

  lemma CpuStepKeeps(s: State, x: Step)
    requires Inv(s) && CpuEnabled(s, x)
    ensures Inv(AfterCpu(s, x))
  {
    hide Inv, PlaceOk, HoldsOk, WakeOk, ChildOk, LockOk;
    var s' := AfterCpu(s, x);
    if x.CpuPick? {
      PickKeeps(s, x.c, x.p);
    } else {
      CpuStepOk(s, x);
      CpuMoveKeeps(s, s', x.c);
    }
  }

  lemma CpuStepOk(s: State, x: Step)
    requires Inv(s) && CpuEnabled(s, x) && !x.CpuPick?
    ensures CpuOk(s, x.c) && CpuOk(AfterCpu(s, x), x.c)
  {
    assert CpuOk(s, x.c);
  }

  lemma PickKeeps(s: State, c: nat, p: nat)
    requires Inv(s) && CpuEnabled(s, CpuPick(c, p))
    ensures Inv(AfterCpu(s, CpuPick(c, p)))
  {
    var s' := AfterCpu(s, CpuPick(c, p));
    assert PlaceOk(s, p) && HoldsOk(s, p) && CpuOk(s, c);
    assert s.proc[p].on == None by {
      assert s.proc[p].on.Some? ==> CpuOk(s, s.proc[p].on.value);
    }
    forall q | 0 <= q < |s'.proc| ensures PlaceOk(s', q) && HoldsOk(s', q) {
      assert PlaceOk(s, q) && HoldsOk(s, q);
    }
    forall q, m | 0 <= q < |s'.proc| && 0 <= m < |s'.lock| ensures WakeOk(s', q, m) {
      assert WakeOk(s, q, m) && LockOk(s, m);
    }
    forall q, r | 0 <= q < |s'.proc| && 0 <= r < |s'.proc| ensures ChildOk(s', q, r) {
      assert ChildOk(s, q, r);
    }
    forall d | 0 <= d < |s'.cpu| ensures CpuOk(s', d) {
      assert CpuOk(s, d);
    }
    forall m | 0 <= m < |s'.lock| ensures LockOk(s', m) {
      assert LockOk(s, m);
    }
  }

  // swtch

  lemma SwtchKeeps(s: State, init: nat, p: nat)
    requires Inv(s) && OtherEnabled(s, Swtch(p))
    ensures Inv(AfterOther(s, init, Swtch(p)))
  {
    hide Inv, PlaceOk, HoldsOk, WakeOk, ChildOk, CpuOk, LockOk, AfterOther;
    var s' := AfterOther(s, init, Swtch(p));
    SwtchShape(s, init, p);
    forall q | 0 <= q < |s.proc| ensures PlaceOk(s', q) && HoldsOk(s', q) {
      SwtchPlace(s, init, p, q);
    }
    forall q, m | 0 <= q < |s.proc| && 0 <= m < |s.lock| ensures WakeOk(s', q, m) && LockOk(s', m) {
      SwtchLock(s, init, p, q, m);
    }
    forall m | 0 <= m < |s.lock| ensures LockOk(s', m) {
      SwtchLock(s, init, p, p, m);
    }
    forall q, r | 0 <= q < |s.proc| && 0 <= r < |s.proc| ensures ChildOk(s', q, r) {
      SwtchChild(s, init, p, q, r);
    }
    forall d | 0 <= d < |s.cpu| ensures CpuOk(s', d) {
      SwtchCpu(s, init, p, d);
    }
    InvParts(s');
  }

  lemma InvParts(s: State)
    requires s.table.Some? ==> s.table.value < |s.cpu|
    requires forall p | 0 <= p < |s.proc| :: PlaceOk(s, p) && HoldsOk(s, p)
    requires forall p, m | 0 <= p < |s.proc| && 0 <= m < |s.lock| :: WakeOk(s, p, m)
    requires forall p, q | 0 <= p < |s.proc| && 0 <= q < |s.proc| :: ChildOk(s, p, q)
    requires forall c | 0 <= c < |s.cpu| :: CpuOk(s, c)
    requires forall m | 0 <= m < |s.lock| :: LockOk(s, m)
    ensures Inv(s)
  {
  }

  lemma SwtchShape(s: State, init: nat, p: nat)
    requires Inv(s) && OtherEnabled(s, Swtch(p))
    ensures
      var s' := AfterOther(s, init, Swtch(p));
      p < |s.proc| == |s'.proc| && |s'.cpu| == |s.cpu| && s'.lock == s.lock && (s'.table.Some? ==> s'.table.value < |s'.cpu|)
  {
  }

  lemma SwtchPlace(s: State, init: nat, p: nat, q: nat)
    requires Inv(s) && OtherEnabled(s, Swtch(p)) && q < |s.proc|
    ensures PlaceOk(AfterOther(s, init, Swtch(p)), q) && HoldsOk(AfterOther(s, init, Swtch(p)), q)
  {
    assert PlaceOk(s, p) && HoldsOk(s, p) && PlaceOk(s, q) && HoldsOk(s, q) && CpuOk(s, s.proc[p].on.value);
  }

  lemma SwtchLock(s: State, init: nat, p: nat, q: nat, m: nat)
    requires Inv(s) && OtherEnabled(s, Swtch(p)) && q < |s.proc| && m < |s.lock|
    ensures WakeOk(AfterOther(s, init, Swtch(p)), q, m) && LockOk(AfterOther(s, init, Swtch(p)), m)
  {
    hide HoldsOk;
    assert PlaceOk(s, p) && WakeOk(s, q, m) && LockOk(s, m);
  }

  lemma SwtchChild(s: State, init: nat, p: nat, q: nat, r: nat)
    requires Inv(s) && OtherEnabled(s, Swtch(p)) && q < |s.proc| && r < |s.proc|
    ensures ChildOk(AfterOther(s, init, Swtch(p)), q, r)
  {
    assert ChildOk(s, q, r);
  }

  lemma SwtchCpu(s: State, init: nat, p: nat, d: nat)
    requires Inv(s) && OtherEnabled(s, Swtch(p)) && d < |s.cpu|
    ensures CpuOk(AfterOther(s, init, Swtch(p)), d)
  {
    hide HoldsOk;
    assert PlaceOk(s, p) && CpuOk(s, d) && CpuOk(s, s.proc[p].on.value);
  }

  // Steps that change another process

  /** A process without a CPU becomes y. */
  lemma OtherKeeps(s: State, s': State, q: nat, y: Proc)
    requires Inv(s) && q < |s.proc| && s' == s.(proc := s.proc[q := y], slots := s'.slots)
    requires |s.slots| <= |s'.slots| && forall i | 0 <= i < |s.slots| :: s'.slots[i] == s.slots[i]
    requires s.proc[q].on == None && y.on == None && s.proc[q].held == y.held == {}
    requires y.state != Sleeping && y.state != Zombie && PlaceOk(s', q) && HoldsOk(s', q)
    requires y.state == Embryo || forall r | 0 <= r < |s.proc| && s.proc[r].on.Some? ::
                                    (s.proc[r].pc.AllocFree? || s.proc[r].pc.Fill?) ==> s.proc[r].pc.q != q
    requires y.state == Embryo ==> s.proc[q].state != Embryo
    ensures Inv(s')
  {
    forall r | 0 <= r < |s'.proc| ensures PlaceOk(s', r) && HoldsOk(s', r) {
      assert PlaceOk(s, r) && HoldsOk(s, r);
    }
    forall r, m | 0 <= r < |s'.proc| && 0 <= m < |s'.lock| ensures WakeOk(s', r, m) {
      assert WakeOk(s, r, m) && LockOk(s, m);
      OtherPending(s, s', q, m);
    }
    forall a, b | 0 <= a < |s'.proc| && 0 <= b < |s'.proc| ensures ChildOk(s', a, b) {
      assert ChildOk(s, a, b);
    }
    forall d | 0 <= d < |s'.cpu| ensures CpuOk(s', d) {
      assert CpuOk(s, d);
    }
    forall m | 0 <= m < |s'.lock| ensures LockOk(s', m) {
      assert LockOk(s, m);
      OtherPending(s, s', q, m);
    }
  }

  lemma OtherPending(s: State, s': State, q: nat, m: nat)
    requires Inv(s) && q < |s.proc| && m < |s.lock| && s'.cpu == s.cpu && s'.lock == s.lock && |s'.proc| == |s.proc|
    requires s.proc[q].on == None && forall r | 0 <= r < |s.proc| && r != q :: s'.proc[r] == s.proc[r]
    ensures WakePending(s', m) == WakePending(s, m)
    ensures s.lock[m].spin.Some? ==> var c := s.lock[m].spin.value; c < |s.cpu| && s.cpu[c].proc != Some(q)
  {
    assert LockOk(s, m);
    assert s.lock[m].spin.Some? ==> CpuOk(s, s.lock[m].spin.value);
  }

  /** A process on a CPU moves on, away from all locks. */
  lemma FreeMoveKeeps(s: State, p: nat, target: Pc)
    requires Inv(s) && p < |s.proc| && s.proc[p].on.Some? && !s.proc[p].pc.Switch?
    requires SpinOf(s.proc[p].pc) == SpinOf(target) == None && HoldsTable(target) == HoldsTable(s.proc[p].pc)
    requires target == PtFree || target == Idle || (target.AllocFree? && HoldsOk(Moved(s, p, target), p))
    ensures Inv(Moved(s, p, target))
  {
    var s' := Moved(s, p, target);
    assert PlaceOk(s, p) && HoldsOk(s, p) && CpuOk(s, s.proc[p].on.value);
    forall r | 0 <= r < |s.proc| ensures ChildOk(s', p, r) && ChildOk(s', r, p) {
      assert ChildOk(s, p, r) && ChildOk(s, r, p);
    }
    MoveKeeps(s, s', p, |s.lock|);
  }

  lemma ReapKeeps(s: State, init: nat, p: nat, q: nat)
    requires Inv(s) && OtherEnabled(s, Reap(p, q))
    ensures Inv(AfterOther(s, init, Reap(p, q)))
    ensures s.proc[q].on == None
  {
    hide WakeOk, ChildOk, LockOk;
    assert PlaceOk(s, p) && PlaceOk(s, q) && HoldsOk(s, q) && CpuOk(s, s.proc[p].on.value);
    assert s.proc[q].on.Some? ==> CpuOk(s, s.proc[q].on.value);
    var s1 := WithProc(s, q, s.proc[q].(state := Unused, pid := 0, parent := None, kstack := false));
    forall r | 0 <= r < |s.proc| && s.proc[r].on.Some?
      ensures s.proc[r].pc.AllocFree? || s.proc[r].pc.Fill? ==> s.proc[r].pc.q != q
    {
      assert HoldsOk(s, r);
    }
    OtherKeeps(s, s1, q, s1.proc[q]);
    FreeMoveKeeps(s1, p, PtFree);
  }

  lemma MakeKeeps(s: State, init: nat, p: nat, q: nat)
    requires Inv(s) && OtherEnabled(s, Make(p, q))
    ensures Inv(AfterOther(s, init, Make(p, q)))
  {
    hide WakeOk, ChildOk, LockOk, CpuOk;
    assert PlaceOk(s, p) && HoldsOk(s, p) && PlaceOk(s, q) && HoldsOk(s, q);
    var y := Proc(Embryo, |s.slots|, s.proc[q].chan, s.proc[q].parent, true, Resume(Run), None, {}, p);
    var s1 := WithProc(s, q, y).(slots := s.slots + [q]);
    OtherKeeps(s, s1, q, y);
    assert HoldsOk(s1, p);
    FreeMoveKeeps(s1, p, AllocFree(q));
  }

  lemma FillKeeps(s: State, init: nat, x: Step)
    requires Inv(s) && (x.Start? || x.Abort?) && OtherEnabled(s, x)
    ensures Inv(AfterOther(s, init, x))
  {
    hide WakeOk, ChildOk, LockOk, CpuOk;
    var p, q := x.p, s.proc[x.p].pc.q;
    assert PlaceOk(s, p) && HoldsOk(s, p) && PlaceOk(s, q) && HoldsOk(s, q);
    var s1 := Moved(s, p, Idle);
    FreeMoveKeeps(s, p, Idle);
    var y := AfterOther(s, init, x).proc[q];
    forall r | 0 <= r < |s1.proc| && s1.proc[r].on.Some?
      ensures s1.proc[r].pc.AllocFree? || s1.proc[r].pc.Fill? ==> s1.proc[r].pc.q != q
    {
      assert HoldsOk(s, r);
    }
    var s2 := AfterOther(s, init, x);
    assert s2.proc == s1.proc[q := y];
    FilledOk(s, init, x);
    OtherKeeps(s1, s2, q, y);
  }

  lemma FilledOk(s: State, init: nat, x: Step)
    requires Inv(s) && (x.Start? || x.Abort?) && OtherEnabled(s, x)
    ensures var q, s2 := s.proc[x.p].pc.q, AfterOther(s, init, x); q < |s2.proc| && PlaceOk(s2, q) && HoldsOk(s2, q)
  {
    hide WakeOk, ChildOk, LockOk, CpuOk;
    var p, q := x.p, s.proc[x.p].pc.q;
    assert PlaceOk(s, p) && HoldsOk(s, p) && PlaceOk(s, q) && HoldsOk(s, q);
  }

  // Waking others

  /** Sleepers may have become runnable, and parents may have changed. */
  ghost predicate Rouses(s: State, s1: State, p: nat) {
    && |s1.proc| == |s.proc| && s1 == s.(proc := s1.proc)
    && (forall q | 0 <= q < |s.proc| ::
          && s1.proc[q] == s.proc[q].(state := s1.proc[q].state, parent := s1.proc[q].parent)
          && (s1.proc[q].state == s.proc[q].state || (s.proc[q].state == Sleeping && s1.proc[q].state == Runnable)))
    && p < |s.proc| && s.proc[p].on.Some? && s.proc[p].state == Running && HoldsTable(s.proc[p].pc)
  }

  lemma RouseKeeps(s: State, s1: State, p: nat)
    requires Inv(s) && Rouses(s, s1, p)
    requires forall a, b | 0 <= a < |s.proc| && 0 <= b < |s.proc| :: ChildOk(s1, a, b)
    ensures Inv(s1)
  {
    hide Inv, PlaceOk, HoldsOk, WakeOk, ChildOk, CpuOk, LockOk, Rouses;
    assert |s1.proc| == |s.proc| && s1 == s.(proc := s1.proc) && (s1.table.Some? ==> s1.table.value < |s1.cpu|) by {
      RouseShape(s, s1, p);
    }
    forall q | 0 <= q < |s.proc| ensures PlaceOk(s1, q) && HoldsOk(s1, q) {
      RousePlace(s, s1, p, q);
    }
    forall q, m | 0 <= q < |s.proc| && 0 <= m < |s.lock| ensures WakeOk(s1, q, m) {
      RouseWake(s, s1, p, q, m);
    }
    forall d | 0 <= d < |s.cpu| ensures CpuOk(s1, d) {
      RouseCpu(s, s1, p, d);
    }
    forall m | 0 <= m < |s.lock| ensures LockOk(s1, m) {
      RouseLock(s, s1, p, m);
    }
    InvParts(s1);
  }

  lemma RouseShape(s: State, s1: State, p: nat)
    requires Inv(s) && Rouses(s, s1, p)
    ensures |s1.proc| == |s.proc| && s1 == s.(proc := s1.proc) && (s1.table.Some? ==> s1.table.value < |s1.cpu|)
  {
  }

  /** While p holds the table lock and is not leaving, no sleeper is still on a CPU. */
  lemma SleepersOff(s: State, p: nat, q: nat)
    requires Inv(s) && p < |s.proc| && s.proc[p].on.Some? && s.proc[p].state == Running && HoldsTable(s.proc[p].pc) && q < |s.proc|
    ensures s.proc[q].state == Sleeping ==> s.proc[q].on == None
    ensures q != p && s.proc[q].on.Some? ==> !HoldsTable(s.proc[q].pc)
  {
    assert PlaceOk(s, p) && PlaceOk(s, q) && CpuOk(s, s.proc[p].on.value);
    assert s.proc[q].on.Some? ==> CpuOk(s, s.proc[q].on.value);
  }

  lemma RousePlace(s: State, s1: State, p: nat, q: nat)
    requires Inv(s) && Rouses(s, s1, p) && q < |s.proc|
    ensures PlaceOk(s1, q) && HoldsOk(s1, q)
  {
    assert PlaceOk(s, q) && HoldsOk(s, q);
    SleepersOff(s, p, q);
  }

  lemma RouseWake(s: State, s1: State, p: nat, q: nat, m: nat)
    requires Inv(s) && Rouses(s, s1, p) && q < |s.proc| && m < |s.lock|
    ensures WakeOk(s1, q, m)
  {
    assert WakeOk(s, q, m);
  }

  lemma RouseCpu(s: State, s1: State, p: nat, d: nat)
    requires Inv(s) && Rouses(s, s1, p) && d < |s.cpu|
    ensures CpuOk(s1, d)
  {
    assert CpuOk(s, d);
  }

  lemma RouseLock(s: State, s1: State, p: nat, m: nat)
    requires Inv(s) && Rouses(s, s1, p) && m < |s.lock|
    ensures LockOk(s1, m)
  {
    assert LockOk(s, m);
  }

  lemma WakeAllKeeps(s: State, init: nat, p: nat)
    requires Inv(s) && OtherEnabled(s, WakeAll(p))
    ensures Inv(AfterOther(s, init, WakeAll(p)))
  {
    hide Inv, PlaceOk, HoldsOk, WakeOk, ChildOk, CpuOk, LockOk, MoveOk;
    var m := s.proc[p].pc.m;
    var s1 := s.(proc := WokenAll(s.proc, LockChan(m)));
    var s2 := AfterOther(s, init, WakeAll(p));
    assert s2.proc == s1.proc[p := s1.proc[p].(pc := RelPtFree(m))];
    WakerRuns(s, p);
    forall a, b | 0 <= a < |s.proc| && 0 <= b < |s.proc| ensures ChildOk(s1, a, b) {
      WokenChild(s, LockChan(m), a, b);
    }
    RouseKeeps(s, s1, p);
    WakerMoves(s, s1, s2, p);
    MoveKeeps(s1, s2, p, m);
  }

  lemma WakerRuns(s: State, p: nat)
    requires Inv(s) && p < |s.proc| && s.proc[p].on.Some? && !s.proc[p].pc.Switch?
    ensures s.proc[p].state == Running
  {
    assert PlaceOk(s, p);
  }

  lemma WokenChild(s: State, chan: Chan, a: nat, b: nat)
    requires Inv(s) && a < |s.proc| && b < |s.proc|
    ensures ChildOk(s.(proc := WokenAll(s.proc, chan)), a, b)
  {
    assert ChildOk(s, a, b);
  }

  /** After wakeup1 nobody waits for the lock, so it may stay unlocked. */
  lemma NoWaiters(s: State, p: nat, q: nat)
    requires Inv(s) && p < |s.proc| && s.proc[p].on.Some? && s.proc[p].pc.RelWake? && q < |s.proc| && s.proc[q].state != Unused
    ensures !Waits(Woken(s.proc[q], LockChan(s.proc[p].pc.m)), s.proc[p].pc.m)
  {
    assert PlaceOk(s, p) && PlaceOk(s, q) && CpuOk(s, s.proc[p].on.value);
    assert s.proc[q].on.Some? ==> CpuOk(s, s.proc[q].on.value);
    SleepersOff(s, p, q);
  }

  lemma WakerMoves(s: State, s1: State, s2: State, p: nat)
    requires Inv(s) && Inv(s1) && OtherEnabled(s, WakeAll(p)) && s1 == s.(proc := WokenAll(s.proc, LockChan(s.proc[p].pc.m)))
    requires s2 == Moved(s1, p, RelPtFree(s.proc[p].pc.m)) && s.proc[p].state == Running
    ensures MoveOk(s1, s2, p, s.proc[p].pc.m)
  {
    var m := s.proc[p].pc.m;
    assert PlaceOk(s1, p) && HoldsOk(s1, p) && CpuOk(s1, s1.proc[p].on.value);
    assert LockOk(s1, m);
    forall q | 0 <= q < |s.proc| ensures WakeOk(s2, q, m) {
      if s.proc[q].state != Unused {
        NoWaiters(s, p, q);
      }
    }
    forall r | 0 <= r < |s.proc| ensures ChildOk(s2, p, r) && ChildOk(s2, r, p) {
      assert ChildOk(s1, p, r) && ChildOk(s1, r, p);
    }
  }

  // exit

  /** init never exits, and nobody else is its own parent. */
  ghost predicate InitOk(s: State, init: nat) {
    init < |s.proc| && forall p | 0 <= p < |s.proc| :: SelfParentOk(s, init, p)
  }

  predicate SelfParentOk(s: State, init: nat, p: nat)
    requires p < |s.proc|
  {
    && (s.proc[p].parent == Some(p) ==> p == init)
    && (s.proc[p].pc.ExitPt? || s.proc[p].pc.ExitSet? ==> p != init)
  }

  lemma ExitKeeps(s: State, init: nat, p: nat)
    requires Inv(s) && InitOk(s, init) && OtherEnabled(s, ExitNow(p))
    ensures Inv(AfterOther(s, init, ExitNow(p)))
  {
    hide Inv, PlaceOk, HoldsOk, WakeOk, ChildOk, CpuOk, LockOk, MoveOk;
    var s1 := s.(proc := Orphaned(s.proc, p, init));
    var s2 := AfterOther(s, init, ExitNow(p));
    WakerRuns(s, p);
    forall a, b | 0 <= a < |s.proc| && 0 <= b < |s.proc| ensures ChildOk(s1, a, b) {
      OrphanedChild(s, init, p, a, b);
    }
    RouseKeeps(s, s1, p);
    ExitMoves(s, s1, s2, init, p);
    MoveKeeps(s1, s2, p, |s.lock|);
  }

  lemma OrphanedChild(s: State, init: nat, p: nat, a: nat, b: nat)
    requires Inv(s) && InitOk(s, init) && OtherEnabled(s, ExitNow(p)) && a < |s.proc| && b < |s.proc|
    ensures ChildOk(s.(proc := Orphaned(s.proc, p, init)), a, b)
  {
    hide Orphaned;
    assert ChildOk(s, a, b);
  }

  lemma ExitMoves(s: State, s1: State, s2: State, init: nat, p: nat)
    requires Inv(s) && Inv(s1) && InitOk(s, init) && OtherEnabled(s, ExitNow(p)) && s1 == s.(proc := Orphaned(s.proc, p, init))
    requires s2 == WithProc(s1, p, s1.proc[p].(state := Zombie, pc := Switch(Exit))) && s.proc[p].state == Running
    ensures MoveOk(s1, s2, p, |s.lock|)
  {
    hide Orphaned;
    assert PlaceOk(s1, p) && HoldsOk(s1, p) && CpuOk(s1, s1.proc[p].on.value);
    forall r | 0 <= r < |s.proc| ensures ChildOk(s2, p, r) && ChildOk(s2, r, p) {
      assert SelfParentOk(s, init, p);
      assert ChildOk(s1, p, r) && ChildOk(s1, r, p);
    }
  }

  lemma InitKept(s: State, init: nat, x: Step, q: nat)
    requires InitOk(s, init) && Enabled(s, init, x) && q < |s.proc|
    ensures |After(s, init, x).proc| == |s.proc| && SelfParentOk(After(s, init, x), init, q)
  {
    hide Orphaned, After, Enabled, LockEnabled, TableEnabled, OtherEnabled, CpuEnabled;
    if IsLockStep(x) {
      InitLock(s, init, x, q);
    } else if IsTableStep(x) {
      InitTable(s, init, x, q);
    } else if IsOtherStep(x) {
      InitOther(s, init, x, q);
    } else {
      InitCpu(s, init, x, q);
    }
  }

  lemma InitLock(s: State, init: nat, x: Step, q: nat)
    requires InitOk(s, init) && IsLockStep(x) && Enabled(s, init, x) && q < |s.proc|
    ensures |After(s, init, x).proc| == |s.proc| && SelfParentOk(After(s, init, x), init, q)
  {
    assert SelfParentOk(s, init, q);
  }

  lemma InitTable(s: State, init: nat, x: Step, q: nat)
    requires InitOk(s, init) && IsTableStep(x) && Enabled(s, init, x) && q < |s.proc|
    ensures |After(s, init, x).proc| == |s.proc| && SelfParentOk(After(s, init, x), init, q)
  {
    hide NoZombieChild, HasChild;
    assert SelfParentOk(s, init, q);
  }

  lemma InitOther(s: State, init: nat, x: Step, q: nat)
    requires InitOk(s, init) && IsOtherStep(x) && Enabled(s, init, x) && q < |s.proc|
    ensures |After(s, init, x).proc| == |s.proc| && SelfParentOk(After(s, init, x), init, q)
  {
    hide Orphaned;
    assert SelfParentOk(s, init, q);
  }

  lemma InitCpu(s: State, init: nat, x: Step, q: nat)
    requires InitOk(s, init) && !IsLockStep(x) && !IsTableStep(x) && !IsOtherStep(x) && Enabled(s, init, x) && q < |s.proc|
    ensures |After(s, init, x).proc| == |s.proc| && SelfParentOk(After(s, init, x), init, q)
  {
    assert SelfParentOk(s, init, q);
  }

  /** Every step keeps the invariant. */
  lemma StepKeeps(s: State, init: nat, x: Step)
    requires Inv(s) && InitOk(s, init) && Enabled(s, init, x)
    ensures Inv(After(s, init, x)) && InitOk(After(s, init, x), init)
  {
    hide Inv, SelfParentOk, LockEnabled, TableEnabled, OtherEnabled, CpuEnabled, AfterLock, AfterTableStep, AfterOther, AfterCpu;
    forall q | 0 <= q < |s.proc| ensures |After(s, init, x).proc| == |s.proc| && SelfParentOk(After(s, init, x), init, q) {
      InitKept(s, init, x, q);
    }
    InitKept(s, init, x, init);
    if IsLockStep(x) {
      LockStepKeeps(s, x);
    } else if IsTableStep(x) {
      TableStepKeeps(s, init, x);
    } else if IsOtherStep(x) {
      match x
      case WakeAll(p) => WakeAllKeeps(s, init, p);
      case Swtch(p) => SwtchKeeps(s, init, p);
      case ExitNow(p) => ExitKeeps(s, init, p);
      case Reap(p, q) => ReapKeeps(s, init, p, q);
      case Make(p, q) => MakeKeeps(s, init, p, q);
      case Start(_) => FillKeeps(s, init, x);
      case Abort(_) => FillKeeps(s, init, x);
    } else {
      CpuStepKeeps(s, x);
    }
  }

  // Runs

  const INIT: nat := 1      // initproc, after user_idle_init

  /** The state in which the CPUs enter scheduler(): two runnable processes, pids 1 and 2. */
  function Initial(procs: nat, cpus: nat, locks: nat): State
    requires procs >= 2
  {
    State(seq(procs, (p: nat) => Proc(if p < 2 then Runnable else Unused, if p < 2 then p + 1 else 0, NoChan, None,
                                      p < 2, Resume(Run), None, {}, 0)),
          seq(cpus, _ => Cpu(None, Acquire)), seq(locks, _ => SleepLock(None, false, 0, 0)), None, [0, 0, 1])
  }

  lemma InitialOk(procs: nat, cpus: nat, locks: nat)
    requires procs >= 2
    ensures Inv(Initial(procs, cpus, locks)) && InitOk(Initial(procs, cpus, locks), INIT)
  {
  }

  /** s' comes from s by these steps. */
  ghost predicate Leads(s: State, xs: seq<Step>, s': State)
    decreases |xs|
  {
    if xs == [] then s' == s
    else Enabled(s, INIT, xs[0]) && Leads(After(s, INIT, xs[0]), xs[1..], s')
  }

  lemma {:induction false} RunKeeps(s: State, xs: seq<Step>, s': State)
    requires Inv(s) && InitOk(s, INIT) && Leads(s, xs, s')
    ensures Inv(s') && InitOk(s', INIT)
    decreases |xs|
  {
    hide Inv, InitOk, After, Enabled;
    if xs != [] {
      StepKeeps(s, INIT, xs[0]);
      RunKeeps(After(s, INIT, xs[0]), xs[1..], s');
    }
  }

  // What holds in every reachable state

  ghost predicate Reachable(s: State) {
    exists procs: nat, cpus: nat, locks: nat, xs: seq<Step> :: procs >= 2 && Leads(Initial(procs, cpus, locks), xs, s)
  }

  lemma ReachableOk(s: State)
    requires Reachable(s)
    ensures Inv(s) && InitOk(s, INIT)
  {
    hide Inv, InitOk, Initial;
    var procs: nat, cpus: nat, locks: nat, xs: seq<Step> :| procs >= 2 && Leads(Initial(procs, cpus, locks), xs, s);
    InitialOk(procs, cpus, locks);
    RunKeeps(Initial(procs, cpus, locks), xs, s);
  }

  /** A sleep lock has at most one holder, and holdingsleep is true for that process only. */
  lemma OneHolder(s: State, p: nat, q: nat, m: nat)
    requires Reachable(s) && p < |s.proc| && q < |s.proc| && m < |s.lock|
    ensures m in s.proc[p].held && m in s.proc[q].held ==> p == q
    ensures s.lock[m].locked <==> exists r :: 0 <= r < |s.proc| && m in s.proc[r].held
    ensures s.proc[p].state != Unused ==>
              (s.lock[m].locked && s.lock[m].pid == s.proc[p].pid <==> m in s.proc[p].held)
  {
    hide PlaceOk, WakeOk, ChildOk, CpuOk, Reachable;
    ReachableOk(s);
    assert HoldsOk(s, p) && HoldsOk(s, q) && LockOk(s, m);
    if s.lock[m].locked {
      assert HoldsOk(s, s.lock[m].owner);
    }
    forall r | 0 <= r < |s.proc| && m in s.proc[r].held ensures s.lock[m].locked {
      assert HoldsOk(s, r);
    }
  }

  /** No lost wakeup: with the two spin locks free, a process asleep on a sleep lock sleeps because
      some process holds it. */
  lemma NoLostWakeup(s: State, p: nat, m: nat)
    requires Reachable(s) && p < |s.proc| && m < |s.lock|
    requires s.table == None && s.lock[m].spin == None && s.proc[p].state == Sleeping && s.proc[p].chan == LockChan(m)
    ensures s.lock[m].locked && exists q :: 0 <= q < |s.proc| && m in s.proc[q].held
  {
    hide ChildOk, Reachable;
    ReachableOk(s);
    assert PlaceOk(s, p) && WakeOk(s, p, m) && LockOk(s, m);
    assert s.proc[p].on.Some? ==> CpuOk(s, s.proc[p].on.value);
  }

  /** A process asleep in wait has no child that it could reap. */
  lemma WaitSleepsForReason(s: State, p: nat)
    requires Reachable(s) && p < |s.proc| && s.proc[p].state == Sleeping && s.proc[p].chan == ProcChan(p)
    ensures NoZombieChild(s, p)
  {
    hide PlaceOk, HoldsOk, WakeOk, CpuOk, LockOk, Reachable;
    ReachableOk(s);
    forall q | 0 <= q < |s.proc| && s.proc[q].parent == Some(p) ensures s.proc[q].state != Zombie {
      assert ChildOk(s, p, q);
    }
  }

  predicate Runs(s: State, c: nat, p: nat)
    requires c < |s.cpu|
  {
    s.cpu[c] == Cpu(Some(p), Away)
  }

  /** A process is run by at most one CPU, on a kernel stack that is not free; with the table lock
      free, the processes that CPUs run are exactly the RUNNING ones. */
  lemma OneCpu(s: State, p: nat, c: nat, d: nat)
    requires Reachable(s) && p < |s.proc| && c < |s.cpu| && d < |s.cpu|
    ensures Runs(s, c, p) && Runs(s, d, p) ==> c == d
    ensures Runs(s, c, p) ==> s.proc[p].kstack && s.proc[p].state != Unused && s.proc[p].state != Embryo
    ensures s.proc[p].state == Running ==> exists e :: 0 <= e < |s.cpu| && Runs(s, e, p)
    ensures s.table == None && Runs(s, c, p) ==> s.proc[p].state == Running
  {
    hide WakeOk, ChildOk, LockOk, Reachable;
    ReachableOk(s);
    assert CpuOk(s, c) && CpuOk(s, d) && PlaceOk(s, p) && HoldsOk(s, p);
    if s.proc[p].state == Running {
      assert Runs(s, s.proc[p].on.value, p);
    }
  }

  /** wait never frees the kernel stack that a CPU is on. */
  lemma ReapIsSafe(s: State, p: nat, q: nat, c: nat)
    requires Reachable(s) && Enabled(s, INIT, Reap(p, q)) && c < |s.cpu|
    ensures !Runs(s, c, q)
  {
    hide Reachable;
    ReachableOk(s);
    ReapKeeps(s, INIT, p, q);
    assert CpuOk(s, c);
  }

  /** The panics of acquire, release and sched are not reached: a CPU does not hold the lock that it
      is about to take, holds the one that it is about to release, and enters swtch with the table lock
      alone, from a process that is not RUNNING.  A ZOMBIE does not come back. */
  lemma NoLockPanic(s: State, p: nat)
    requires Reachable(s) && p < |s.proc| && s.proc[p].on.Some?
    ensures
      var c, pc := s.proc[p].on, s.proc[p].pc;
      && (AfterTable(pc).Some? ==> s.table != c)
      && (pc.RelPtFree? || pc.AllocFree? || pc.PtFree? || pc.Resume? ==> s.table == c)
      && (pc.AcqSpin? || pc.RelSpin? ==> pc.m < |s.lock| && s.lock[pc.m].spin != c)
      && (pc.SleepFree? || pc.AcqFree? || pc.RelFree? ==> pc.m < |s.lock| && s.lock[pc.m].spin == c)
      && (pc.Switch? ==> s.table == c && s.proc[p].state != Running && forall m | 0 <= m < |s.lock| :: s.lock[m].spin != c)
      && (pc.Resume? ==> pc.why != Exit)
  {
    hide WakeOk, ChildOk, Reachable;
    ReachableOk(s);
    var pc := s.proc[p].pc;
    assert PlaceOk(s, p) && HoldsOk(s, p) && CpuOk(s, s.proc[p].on.value);
    if pc.AcqSpin? || pc.RelSpin? {
      assert LockOk(s, pc.m);
    }
    if pc.Switch? {
      forall m | 0 <= m < |s.lock| ensures s.lock[m].spin != s.proc[p].on {
        assert LockOk(s, m);
      }
    }
  }
}
