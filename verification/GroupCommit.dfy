/** The group-commit protocol of kern/log.c as a step system: any number of processes call
    begin_op, log_write and end_op, and their steps interleave in any order.  Each critical
    section under log.lock is one step; the unlocked guard of log_write and the unlocked phases
    of commit are steps of their own. */
module GroupCommit {
  import opened Disk

  const NLOG: nat := LOGSIZE   // sb.nlog, as mkfs sets it

  datatype Proc =
    | Outside                                   // not in a transaction
    | Asleep                                    // in begin_op, sleeping on the log
    | InOp(logged: set<nat>)                    // between begin_op and end_op
    | Guarded(logged: set<nat>, b: nat)         // in log_write(b), past the guard
    | Writing(snap: seq<nat>)                   // in commit, up to install_trans
    | Erased                                    // in commit, after lh.n = 0

  datatype State = State(outstanding: int, committing: bool, block: seq<nat>, proc: seq<Proc>, panicked: bool)

  datatype Action = Begin(p: nat) | Guard(p: nat, b: nat) | Append(p: nat) | End(p: nat) | Clear(p: nat) | Finish(p: nat)

  function Initial(procs: nat): State {
    State(0, false, [], seq(procs, _ => Outside), false)
  }

  /** wakeup(&log): every sleeper re-enters the loop of begin_op. */
  function Wake(proc: seq<Proc>): (r: seq<Proc>)
    ensures |r| == |proc|
    ensures forall i | 0 <= i < |r| :: r[i] == if proc[i].Asleep? then Outside else proc[i]
  {
    seq(|proc|, i requires 0 <= i < |proc| => if proc[i].Asleep? then Outside else proc[i])
  }

  /** An operation logs at most `limit` distinct blocks. */
  predicate Enabled(s: State, a: Action, limit: nat) {
    && !s.panicked && a.p < |s.proc|
    && match a
       case Begin(p) => s.proc[p].Outside?
       case Guard(p, b) => s.proc[p].InOp? && |s.proc[p].logged + {b}| <= limit
       case Append(p) => s.proc[p].Guarded?
       case End(p) => s.proc[p].InOp?
       case Clear(p) => s.proc[p].Writing?
       case Finish(p) => s.proc[p].Erased?
  }

  function Step(s: State, a: Action): State
    requires a.p < |s.proc|
    requires a.Guard? ==> s.proc[a.p].InOp?
    requires a.Append? ==> s.proc[a.p].Guarded?
  {
    match a
    case Begin(p) =>
      if s.committing then s.(proc := s.proc[p := Asleep])
      else if |s.block| + (s.outstanding + 1) * MAXOPBLOCKS > LOGSIZE then s.(proc := s.proc[p := Asleep])
      else s.(outstanding := s.outstanding + 1, proc := s.proc[p := InOp({})])
    case Guard(p, b) =>
      if |s.block| >= LOGSIZE || |s.block| >= NLOG - 1 then s.(panicked := true)
      else s.(proc := s.proc[p := Guarded(s.proc[p].logged, b)])
    case Append(p) =>
      var b := s.proc[p].b;
      s.(block := if b in s.block then s.block else s.block + [b],
         proc := s.proc[p := InOp(s.proc[p].logged + {b})])
    case End(p) =>
      var s' := s.(outstanding := s.outstanding - 1);
      if s.committing then s'.(panicked := true)
      else if s'.outstanding == 0 then s'.(committing := true, proc := s.proc[p := Writing(s.block)])
      else s'.(proc := Wake(s.proc[p := Outside]))
    case Clear(p) => s.(block := [], proc := s.proc[p := Erased])
    case Finish(p) => s.(committing := false, proc := Wake(s.proc[p := Outside]))
  }

  ghost predicate IsRun(s: State, actions: seq<Action>, limit: nat)
    decreases actions
  {
    actions == [] || (Enabled(s, actions[0], limit) && IsRun(Step(s, actions[0]), actions[1..], limit))
  }

  ghost function RunOf(s: State, actions: seq<Action>, limit: nat): State
    requires IsRun(s, actions, limit)
    decreases actions
  {
    if actions == [] then s else RunOf(Step(s, actions[0]), actions[1..], limit)
  }

  ghost predicate Reachable(procs: nat, limit: nat, s: State) {
    exists actions :: IsRun(Initial(procs), actions, limit) && RunOf(Initial(procs), actions, limit) == s
  }

  // Weighted sums over the processes

  function Sum(f: Proc -> int, proc: seq<Proc>): int {
    if proc == [] then 0 else f(proc[0]) + Sum(f, proc[1..])
  }

  lemma {:induction false} SumUpdate(f: Proc -> int, proc: seq<Proc>, p: nat, x: Proc)
    requires p < |proc|
    ensures Sum(f, proc[p := x]) == Sum(f, proc) - f(proc[p]) + f(x)
  {
    if p == 0 {
      assert proc[0 := x][1..] == proc[1..];
    } else {
      assert proc[p := x][1..] == proc[1..][p - 1 := x];
      SumUpdate(f, proc[1..], p - 1, x);
    }
  }

  lemma {:induction false} SumWake(f: Proc -> int, proc: seq<Proc>)
    requires f(Asleep) == f(Outside)
    ensures Sum(f, Wake(proc)) == Sum(f, proc)
  {
    if proc != [] {
      assert Wake(proc)[1..] == Wake(proc[1..]);
      SumWake(f, proc[1..]);
    }
  }

  lemma {:induction false} SumBounds(f: Proc -> int, proc: seq<Proc>)
    requires forall x :: f(x) >= 0
    ensures Sum(f, proc) >= 0 && forall i | 0 <= i < |proc| :: f(proc[i]) <= Sum(f, proc)
  {
    if proc != [] {
      SumBounds(f, proc[1..]);
      forall i | 0 <= i < |proc| ensures f(proc[i]) <= Sum(f, proc) {
        if i > 0 {
          assert proc[i] == proc[1..][i - 1];
        }
      }
    }
  }

  lemma {:induction false} SumZero(f: Proc -> int, proc: seq<Proc>)
    requires forall i | 0 <= i < |proc| :: f(proc[i]) == 0
    ensures Sum(f, proc) == 0
  {
    if proc != [] {
      SumZero(f, proc[1..]);
    }
  }

  function Running(x: Proc): int { if x.InOp? || x.Guarded? then 1 else 0 }

  function Committer(x: Proc): int { if x.Writing? || x.Erased? then 1 else 0 }

  const OPLIMIT: nat := MAXOPBLOCKS - 1

  /** Blocks that an operation may still append. */
  function Slack(x: Proc): int {
    if (x.InOp? || x.Guarded?) && |x.logged| <= OPLIMIT then OPLIMIT - |x.logged| else 0
  }

  // The invariant

  ghost predicate ProcOk(s: State, limit: nat, x: Proc) {
    && (x.InOp? || x.Guarded? ==> |x.logged| <= limit && forall b | b in x.logged :: b in s.block)
    && (x.Guarded? ==> |x.logged + {x.b}| <= limit)
    && (x.Writing? ==> x.snap == s.block)
    && (x.Erased? ==> s.block == [])
    && (x.Asleep? ==> s.committing || s.outstanding > 0)
  }

  ghost predicate Inv(s: State, limit: nat) {
    && !s.panicked
    && s.outstanding == Sum(Running, s.proc)
    && Sum(Committer, s.proc) == (if s.committing then 1 else 0)
    && (s.committing ==> s.outstanding == 0)
    && (!s.committing && s.outstanding == 0 ==> s.block == [])
    && (forall i, j | 0 <= i < j < |s.block| :: s.block[i] != s.block[j])
    && (forall i | 0 <= i < |s.proc| :: ProcOk(s, limit, s.proc[i]))
    && |s.block| + Sum(Slack, s.proc) <= NLOG - 2
  }

  lemma InitialInv(procs: nat, limit: nat)
    ensures Inv(Initial(procs), limit)
  {
    SumZero(Running, Initial(procs).proc);
    SumZero(Committer, Initial(procs).proc);
    SumZero(Slack, Initial(procs).proc);
  }

  lemma Sums(s: State, p: nat, x: Proc)
    requires p < |s.proc|
    ensures Sum(Running, s.proc[p := x]) == Sum(Running, s.proc) - Running(s.proc[p]) + Running(x)
    ensures Sum(Committer, s.proc[p := x]) == Sum(Committer, s.proc) - Committer(s.proc[p]) + Committer(x)
    ensures Sum(Slack, s.proc[p := x]) == Sum(Slack, s.proc) - Slack(s.proc[p]) + Slack(x)
    ensures Sum(Running, s.proc) >= 0 && Sum(Slack, s.proc) >= 0
    ensures forall i | 0 <= i < |s.proc| ::
              && Running(s.proc[i]) <= Sum(Running, s.proc)
              && Committer(s.proc[i]) <= Sum(Committer, s.proc)
              && Slack(s.proc[i]) <= Sum(Slack, s.proc)
    ensures Sum(Running, Wake(s.proc[p := x])) == Sum(Running, s.proc[p := x])
    ensures Sum(Committer, Wake(s.proc[p := x])) == Sum(Committer, s.proc[p := x])
    ensures Sum(Slack, Wake(s.proc[p := x])) == Sum(Slack, s.proc[p := x])
  {
    SumUpdate(Running, s.proc, p, x);
    SumUpdate(Committer, s.proc, p, x);
    SumUpdate(Slack, s.proc, p, x);
    SumBounds(Running, s.proc);
    SumBounds(Committer, s.proc);
    SumBounds(Slack, s.proc);
    SumWake(Running, s.proc[p := x]);
    SumWake(Committer, s.proc[p := x]);
    SumWake(Slack, s.proc[p := x]);
  }

  lemma {:induction false} SlackBound(proc: seq<Proc>)
    ensures Sum(Slack, proc) <= OPLIMIT * Sum(Running, proc)
  {
    if proc != [] {
      SlackBound(proc[1..]);
    }
  }

  lemma BeginKeeps(s: State, p: nat, limit: nat)
    requires Inv(s, limit) && Enabled(s, Begin(p), limit)
    ensures Inv(Step(s, Begin(p)), limit)
  {
    Sums(s, p, Asleep);
    Sums(s, p, InOp({}));
    SlackBound(s.proc);
    var s' := Step(s, Begin(p));
    forall i | 0 <= i < |s'.proc| ensures ProcOk(s', limit, s'.proc[i]) {
      assert ProcOk(s, limit, s.proc[i]);
    }
  }

  lemma GuardKeeps(s: State, p: nat, b: nat, limit: nat)
    requires Inv(s, limit) && Enabled(s, Guard(p, b), limit)
    ensures Inv(Step(s, Guard(p, b)), limit)
  {
    Sums(s, p, Guarded(s.proc[p].logged, b));
    var s' := Step(s, Guard(p, b));
    forall i | 0 <= i < |s'.proc| ensures ProcOk(s', limit, s'.proc[i]) {
      assert ProcOk(s, limit, s.proc[i]);
    }
  }

  lemma AppendKeeps(s: State, p: nat, limit: nat)
    requires Inv(s, limit) && Enabled(s, Append(p), limit) && limit <= OPLIMIT
    ensures Inv(Step(s, Append(p)), limit)
  {
    var b, logged := s.proc[p].b, s.proc[p].logged;
    Sums(s, p, InOp(logged + {b}));
    assert ProcOk(s, limit, s.proc[p]);
    assert b !in logged ==> |logged + {b}| == |logged| + 1;
    assert b in logged ==> logged + {b} == logged;
    var s' := Step(s, Append(p));
    forall i | 0 <= i < |s'.proc| ensures ProcOk(s', limit, s'.proc[i]) {
      assert ProcOk(s, limit, s.proc[i]);
    }
  }

  lemma EndKeeps(s: State, p: nat, limit: nat)
    requires Inv(s, limit) && Enabled(s, End(p), limit)
    ensures Inv(Step(s, End(p)), limit)
  {
    Sums(s, p, Writing(s.block));
    Sums(s, p, Outside);
    var s' := Step(s, End(p));
    forall i | 0 <= i < |s'.proc| ensures ProcOk(s', limit, s'.proc[i]) {
      assert ProcOk(s, limit, s.proc[i]);
    }
  }

  lemma ClearKeeps(s: State, p: nat, limit: nat)
    requires Inv(s, limit) && Enabled(s, Clear(p), limit)
    ensures Inv(Step(s, Clear(p)), limit)
  {
    Sums(s, p, Erased);
    SumUpdate(Committer, s.proc, p, Outside);
    SumBounds(Committer, s.proc[p := Outside]);
    var s' := Step(s, Clear(p));
    forall i | 0 <= i < |s'.proc| ensures ProcOk(s', limit, s'.proc[i]) {
      assert ProcOk(s, limit, s.proc[i]);
      assert i != p ==> s.proc[p := Outside][i] == s.proc[i];
    }
  }

  lemma FinishKeeps(s: State, p: nat, limit: nat)
    requires Inv(s, limit) && Enabled(s, Finish(p), limit)
    ensures Inv(Step(s, Finish(p)), limit)
  {
    Sums(s, p, Outside);
    assert ProcOk(s, limit, s.proc[p]);
    var s' := Step(s, Finish(p));
    forall i | 0 <= i < |s'.proc| ensures ProcOk(s', limit, s'.proc[i]) {
      assert ProcOk(s, limit, s.proc[i]);
    }
  }

  lemma StepKeeps(s: State, a: Action, limit: nat)
    requires Inv(s, limit) && Enabled(s, a, limit) && limit <= OPLIMIT
    ensures Inv(Step(s, a), limit)
  {
    match a
    case Begin(p) => BeginKeeps(s, p, limit);
    case Guard(p, b) => GuardKeeps(s, p, b, limit);
    case Append(p) => AppendKeeps(s, p, limit);
    case End(p) => EndKeeps(s, p, limit);
    case Clear(p) => ClearKeeps(s, p, limit);
    case Finish(p) => FinishKeeps(s, p, limit);
  }

  lemma {:induction false} RunKeeps(s: State, actions: seq<Action>, limit: nat)
    requires Inv(s, limit) && IsRun(s, actions, limit) && limit <= OPLIMIT
    ensures Inv(RunOf(s, actions, limit), limit)
    decreases actions
  {
    if actions != [] {
      StepKeeps(s, actions[0], limit);
      RunKeeps(Step(s, actions[0]), actions[1..], limit);
    }
  }

  /** What the invariant means to a reader of log.c, in any state of any run. */
  lemma GroupCommitSafety(procs: nat, limit: nat, s: State, p: nat)
    requires limit < MAXOPBLOCKS && Reachable(procs, limit, s) && p < |s.proc|
    ensures !s.panicked && |s.block| <= NLOG - 2
    ensures s.committing ==> s.outstanding == 0
    ensures !s.committing && s.outstanding == 0 ==> s.block == []
    ensures s.proc[p].Writing? ==> s.committing && s.proc[p].snap == s.block
    ensures s.proc[p].Asleep? ==> s.committing || s.outstanding > 0
    ensures s.proc[p].InOp? ==> s.proc[p].logged <= set b | b in s.block
    ensures forall q | 0 <= q < |s.proc| && q != p && Committer(s.proc[p]) == 1 :: !s.proc[q].InOp? && Committer(s.proc[q]) == 0
  {
    var actions :| IsRun(Initial(procs), actions, limit) && RunOf(Initial(procs), actions, limit) == s;
    InitialInv(procs, limit);
    RunKeeps(Initial(procs), actions, limit);
    Sums(s, p, Outside);
    assert ProcOk(s, limit, s.proc[p]);
    SumBounds(Committer, s.proc[p := Outside]);
    forall q | 0 <= q < |s.proc| && q != p ensures s.proc[p := Outside][q] == s.proc[q] {
    }
  }

  // The bound is tight: with ten blocks to an operation, as MAXOPBLOCKS allows, the guard fires.

  lemma {:induction false} RunExtend(s: State, actions: seq<Action>, a: Action, limit: nat)
    requires IsRun(s, actions, limit) && Enabled(RunOf(s, actions, limit), a, limit)
    ensures IsRun(s, actions + [a], limit)
    ensures RunOf(s, actions + [a], limit) == Step(RunOf(s, actions, limit), a)
    decreases actions
  {
    if actions == [] {
      assert ([] + [a])[1..] == [];
    } else {
      RunExtend(Step(s, actions[0]), actions[1..], a, limit);
      assert (actions + [a])[1..] == actions[1..] + [a];
    }
  }

  lemma ReachStep(procs: nat, limit: nat, s: State, a: Action)
    requires Reachable(procs, limit, s) && Enabled(s, a, limit)
    ensures Reachable(procs, limit, Step(s, a))
  {
    var actions :| IsRun(Initial(procs), actions, limit) && RunOf(Initial(procs), actions, limit) == s;
    RunExtend(Initial(procs), actions, a, limit);
  }

  /** Process p logs the k blocks from `from` on. */
  lemma {:induction false} LogMany(procs: nat, limit: nat, s: State, p: nat, from: nat, k: nat) returns (s': State)
    requires Reachable(procs, limit, s) && p < |s.proc| && s.proc[p].InOp? && !s.panicked
    requires |s.proc[p].logged| + k <= limit && |s.block| + k < NLOG
    requires forall b | b in s.block || b in s.proc[p].logged :: b < from
    ensures Reachable(procs, limit, s')
    ensures |s'.proc| == |s.proc| && s'.proc == s.proc[p := s'.proc[p]] && s'.proc[p].InOp? && |s'.proc[p].logged| == |s.proc[p].logged| + k
    ensures |s'.block| == |s.block| + k && forall b | b in s'.block || b in s'.proc[p].logged :: b < from + k
    ensures s' == s.(block := s'.block, proc := s'.proc)
    decreases k
  {
    if k == 0 {
      s' := s;
    } else {
      ReachStep(procs, limit, s, Guard(p, from));
      var s1 := Step(s, Guard(p, from));
      ReachStep(procs, limit, s1, Append(p));
      var s2 := Step(s1, Append(p));
      s' := LogMany(procs, limit, s2, p, from + 1, k - 1);
    }
  }

  /** One operation logged ten blocks and ended while a second one, still empty, kept it from
      committing; then a third one began. */
  lemma TwoFreshOperations(procs: nat, limit: nat) returns (s: State)
    requires procs >= 2 && limit >= MAXOPBLOCKS
    ensures Reachable(procs, limit, s) && !s.panicked && |s.proc| == procs
    ensures s.proc[0] == InOp({}) && s.proc[1] == InOp({}) && |s.block| == 10 && forall b | b in s.block :: b < 10
  {
    s := Initial(procs);
    assert IsRun(s, [], limit) && RunOf(s, [], limit) == s;
    ReachStep(procs, limit, s, Begin(0));
    s := LogMany(procs, limit, Step(s, Begin(0)), 0, 0, 10);
    ReachStep(procs, limit, s, Begin(1));
    s := Step(s, Begin(1));
    ReachStep(procs, limit, s, End(0));
    s := Step(s, End(0));
    ReachStep(procs, limit, s, Begin(0));
    s := Step(s, Begin(0));
  }

  lemma TenBlocksPanic(procs: nat, limit: nat) returns (s: State)
    requires procs >= 2 && limit >= MAXOPBLOCKS
    ensures Reachable(procs, limit, s) && s.panicked
  {
    s := TwoFreshOperations(procs, limit);
    s := LogMany(procs, limit, s, 0, 10, 10);
    s := LogMany(procs, limit, s, 1, 20, 9);
    ReachStep(procs, limit, s, Guard(1, 29));
    s := Step(s, Guard(1, 29));
  }

  /** log_write's "too big a transaction" panic is out of reach exactly when every operation stays
      below MAXOPBLOCKS distinct blocks. */
  lemma PanicFree(procs: nat, limit: nat)
    requires procs >= 2
    ensures (forall s | Reachable(procs, limit, s) :: !s.panicked) <==> limit < MAXOPBLOCKS
  {
    if limit < MAXOPBLOCKS {
      forall s | Reachable(procs, limit, s) ensures !s.panicked {
        var actions :| IsRun(Initial(procs), actions, limit) && RunOf(Initial(procs), actions, limit) == s;
        InitialInv(procs, limit);
        RunKeeps(Initial(procs), actions, limit);
      }
    } else {
      var s := TenBlocksPanic(procs, limit);
    }
  }
}
