/** Which spinlocks a CPU holds while ptable.lock is about to be handed over (proc.c, spinlock.c):
    what makes sched()'s test of the number of locks succeed. */
module ProcLocks {
  import opened Options
  import opened ProcTable
  import opened ProcMachine
  import opened ProcSafety

  /** On the way into or out of sched(), with no other lock. */
  predicate Bare(pc: PC) {
    || (pc.Locked? && (pc.op.Exit? || pc.op.Wait? || pc.op.Yield?)) || pc.ParentWoken? || pc.ChildrenPassed?
    || pc.Ready? || pc.Dozing? || pc.Yielding? || pc.Dying? || pc.Resumed?
  }

  /** The locks of a CPU whose thread is at pc. */
  predicate Carries(pc: PC, locks: map<nat, nat>, c: nat) {
    && (Bare(pc) ==> NoOtherLock(locks, c))
    && (pc.Enter? || pc.Both? ==> OnlyLock(locks, c, pc.id))
  }

  /** CPU c: in the scheduler under ptable.lock it holds no other lock. */
  predicate CpuOk(pc: seq<PC>, on: seq<Option<nat>>, lock: Option<nat>, locks: map<nat, nat>, c: nat)
    requires c < |on|
  {
    if on[c].None? then lock == Some(c) ==> NoOtherLock(locks, c)
    else on[c].value < |pc| ==> Carries(pc[on[c].value], locks, c)
  }

  ghost predicate LocksInv(s: State) {
    forall c :: 0 <= c < |s.on| ==> CpuOk(s.pc, s.on, s.lock, s.locks, c)
  }

  /** The locks of the CPUs other than c are the same. */
  predicate SameFor(locks: map<nat, nat>, new_: map<nat, nat>, c: nat) {
    && (forall id :: id in locks && locks[id] != c ==> id in new_ && new_[id] == locks[id])
    && (forall id :: id in new_ && new_[id] != c ==> id in locks && locks[id] == new_[id])
  }

  /** Another CPU's locks and thread are untouched. */
  lemma OtherCpu(s: State, r: State, c: nat, d: nat)
    requires c < |s.on| == |r.on| && d < |s.on| && d != c && CpuOk(s.pc, s.on, s.lock, s.locks, d) && r.on[d] == s.on[d]
    requires s.on[d].Some? ==> |r.pc| == |s.pc| && (s.on[d].value < |s.pc| ==> r.pc[s.on[d].value] == s.pc[s.on[d].value])
    requires SameFor(s.locks, r.locks, c) && (r.lock == s.lock || r.lock == None || r.lock == Some(c))
    ensures CpuOk(r.pc, r.on, r.lock, r.locks, d)
  {
  }

  /** A step of CPU c that moves no thread but its own, and slots on no CPU. */
  lemma StepOfCpu(s: State, r: State, c: nat)
    requires OnInv(s.on, s.at) && |s.pc| == |s.at| && LocksInv(s) && c < |s.on| == |r.on| && |r.pc| == |s.pc|
    requires forall d :: 0 <= d < |s.on| && d != c ==> r.on[d] == s.on[d]
    requires forall q :: 0 <= q < |s.pc| && s.at[q].Some? && s.at[q] != Some(c) ==> r.pc[q] == s.pc[q]
    requires SameFor(s.locks, r.locks, c) && (r.lock == s.lock || r.lock == None || r.lock == Some(c))
    requires CpuOk(r.pc, r.on, r.lock, r.locks, c)
    ensures LocksInv(r)
  {
    forall d | 0 <= d < |s.on| ensures CpuOk(r.pc, r.on, r.lock, r.locks, d) {
      if d != c {
        if s.on[d].Some? { assert s.at[s.on[d].value] == Some(d); }
        OtherCpu(s, r, c, d);
      }
    }
  }

  /** Thread p on CPU c moves to point n. */
  lemma ThreadMoves(s: State, r: State, c: nat, p: nat, n: PC)
    requires OnInv(s.on, s.at) && |s.pc| == |s.at| && LocksInv(s) && Runs(s, c, p)
    requires r.on == s.on && r.pc == s.pc[p := n] && SameFor(s.locks, r.locks, c)
    requires (r.lock == s.lock || r.lock == None || r.lock == Some(c)) && Carries(n, r.locks, c)
    ensures LocksInv(r)
  {
    StepOfCpu(s, r, c);
  }

  /** Thread p moves to a point that demands nothing of its locks, slot k moving along off every CPU. */
  lemma PairMoves(s: State, r: State, c: nat, p: nat, k: nat, nk: PC, n: PC)
    requires OnInv(s.on, s.at) && |s.pc| == |s.at| && LocksInv(s) && Runs(s, c, p) && k < |s.pc| && s.at[k] == None
    requires r.on == s.on && r.pc == s.pc[k := nk][p := n] && r.locks == s.locks && r.lock == s.lock && Carries(n, s.locks, c)
    ensures LocksInv(r)
  {
    StepOfCpu(s, r, c);
  }

  /** What the locks of c allowed before the step. */
  lemma Carried(s: State, c: nat, p: nat)
    requires LocksInv(s) && Runs(s, c, p)
    ensures Carries(s.pc[p], s.locks, c)
  {
    assert CpuOk(s.pc, s.on, s.lock, s.locks, c);
  }

  lemma LockTaken(s: State, r: State, c: nat, id: nat)
    requires OnInv(s.on, s.at) && |s.pc| == |s.at| && LocksInv(s) && c < |s.on| && Interruptible(s, c)
    requires r == s.(locks := s.locks[id := c]) && id !in s.locks
    ensures LocksInv(r)
  {
    StepOfCpu(s, r, c);
  }

  lemma LockDropped(s: State, r: State, c: nat, id: nat)
    requires OnInv(s.on, s.at) && |s.pc| == |s.at| && LocksInv(s) && c < |s.on| && Interruptible(s, c)
    requires r == s.(locks := s.locks - {id}) && id in s.locks && s.locks[id] == c
    ensures LocksInv(r)
  {
    StepOfCpu(s, r, c);
  }

  lemma DispatchKeepsLocks(s: State, r: State, c: nat, p: nat)
    requires OnInv(s.on, s.at) && Shaped(s) && LocksInv(s) && InScheduler(s, c) && s.lock == Some(c)
    requires p < |s.tab| && s.at[p] == None && r == SwitchTo(s, c, p)
    ensures LocksInv(r)
  {
    assert CpuOk(s.pc, s.on, s.lock, s.locks, c);
    StepOfCpu(s, r, c);
  }

  lemma SchedKeepsLocks(s: State, r: State, c: nat)
    requires OnInv(s.on, s.at) && |s.pc| == |s.at| && LocksInv(s) && InScheduler(s, c)
    requires (r == s.(lock := Some(c)) && NoOtherLock(s.locks, c)) || r == s.(lock := None)
    ensures LocksInv(r)
  {
    StepOfCpu(s, r, c);
  }

  lemma CpuKeepsLocks(s: State, c: nat, step: CpuStep)
    requires OnInv(s.on, s.at) && Shaped(s) && LocksInv(s) && CpuEnabled(s, c, step)
    requires step.Dispatch? ==> s.at[step.p] == None
    ensures LocksInv(DoCpu(s, c, step))
  {
    var r := DoCpu(s, c, step);
    match step
    case TakeLock(id) => LockTaken(s, r, c, id);
    case DropLock(id) => LockDropped(s, r, c, id);
    case SchedAcquire => SchedKeepsLocks(s, r, c);
    case SchedRelease => SchedKeepsLocks(s, r, c);
    case Dispatch(p) => DispatchKeepsLocks(s, r, c, p);
    case IrqWakeup(chan) =>
  }

  lemma ForkKeepsLocks(s: State, c: nat, p: nat, step: ForkStep)
    requires OnInv(s.on, s.at) && Shaped(s) && LocksInv(s) && Runs(s, c, p) && ForkEnabled(s, p, step)
    requires step.DoStart? ==> s.at[step.k] == None && step.k != p
    ensures LocksInv(DoFork(s, c, p, step))
  {
    var r := DoFork(s, c, p, step);
    if step.DoStart? {
      PairMoves(s, r, c, p, step.k, Fresh, Unlocking(ToCode));
    } else {
      ThreadMoves(s, r, c, p, r.pc[p]);
    }
  }

  lemma SwtchKeepsLocks(s: State, r: State, c: nat, p: nat)
    requires OnInv(s.on, s.at) && Shaped(s) && LocksInv(s) && Runs(s, c, p) && Bare(s.pc[p])
    requires r == s.(pc := s.pc[p := Parked(s.pc[p])], on := s.on[c := None], at := s.at[p := None])
    ensures LocksInv(r)
  {
    Carried(s, c, p);
    StepOfCpu(s, r, c);
  }

  lemma TableKeepsLocks(s: State, init: nat, c: nat, p: nat, step: TableStep)
    requires OnInv(s.on, s.at) && Shaped(s) && LocksInv(s) && Runs(s, c, p) && TableEnabled(s, init, c, p, step)
    ensures LocksInv(DoTable(s, init, c, p, step))
  {
    var r := DoTable(s, init, c, p, step);
    Carried(s, c, p);
    if step.Swtch? { SwtchKeepsLocks(s, r, c, p); } else { ThreadMoves(s, r, c, p, r.pc[p]); }
  }

  lemma ExitKeepsLocks(s: State, init: nat, c: nat, p: nat, step: ExitStep)
    requires OnInv(s.on, s.at) && Shaped(s) && LocksInv(s) && Runs(s, c, p) && ExitEnabled(s, p, step)
    requires step.DoWait? && step.k < |s.tab| ==> s.at[step.k] == None && step.k != p
    ensures LocksInv(DoExit(s, init, c, p, step))
  {
    var r := DoExit(s, init, c, p, step);
    Carried(s, c, p);
    if step.DoWait? && step.k < |s.tab| {
      PairMoves(s, r, c, p, step.k, Off, Unlocking(ToCode));
    } else {
      ThreadMoves(s, r, c, p, r.pc[p]);
    }
  }

  lemma SleepKeepsLocks(s: State, c: nat, p: nat, step: SleepStep)
    requires OnInv(s.on, s.at) && Shaped(s) && LocksInv(s) && Runs(s, c, p) && SleepEnabled(s, c, p, step)
    ensures LocksInv(DoSleep(s, c, p, step))
  {
    var r := DoSleep(s, c, p, step);
    Carried(s, c, p);
    ThreadMoves(s, r, c, p, r.pc[p]);
  }

  /** The slots that a step moves along with its own thread are on no CPU. */
  predicate OffCpu(s: State, step: Step) {
    match step
    case Cpu(_, cpu) => cpu.Dispatch? && cpu.p < |s.at| ==> s.at[cpu.p] == None
    case InFork(_, p, fork) => fork.DoStart? && fork.k < |s.at| ==> s.at[fork.k] == None && fork.k != p
    case InExit(_, p, exit) => exit.DoWait? && exit.k < |s.at| ==> s.at[exit.k] == None && exit.k != p
    case _ => true
  }

  lemma OffCpuHolds(s: State, init: nat, step: Step)
    requires Inv(s, init) && Enabled(s, init, step)
    ensures OffCpu(s, step)
  {
    match step
    case Cpu(c, cpu) => if cpu.Dispatch? { RunnableParked(s, init, c, cpu.p); }
    case InFork(c, p, fork) => if fork.DoStart? { Building(s, init, p, fork.k); }
    case InExit(c, p, exit) => if exit.DoWait? && exit.k < |s.at| { DeadChild(s, init, c, p, exit.k); }
    case InTable(c, p, table) =>
    case InSleep(c, p, sleep) =>
  }

  lemma StepKeepsLocks(s: State, init: nat, step: Step)
    requires OnInv(s.on, s.at) && Shaped(s) && LocksInv(s) && Enabled(s, init, step) && OffCpu(s, step)
    ensures LocksInv(Do(s, init, step))
  {
    match step
    case Cpu(c, cpu) => CpuKeepsLocks(s, c, cpu);
    case InFork(c, p, fork) => ForkKeepsLocks(s, c, p, fork);
    case InTable(c, p, table) => TableKeepsLocks(s, init, c, p, table);
    case InExit(c, p, exit) => ExitKeepsLocks(s, init, c, p, exit);
    case InSleep(c, p, sleep) => SleepKeepsLocks(s, c, p, sleep);
  }
}
