/** Every run of the process machine: the theorems about sleep and wakeup, exit and wait. */
module ProcRuns {
  import opened Options
  import opened ProcTable
  import opened ProcMachine
  import opened ProcSafety
  import opened ProcLocks

  lemma CpuKeepsInv(s: State, init: nat, c: nat, step: CpuStep)
    requires Inv(s, init) && CpuEnabled(s, c, step)
    ensures Inv(DoCpu(s, c, step), init)
  {
    var r := DoCpu(s, c, step);
    match step
    case TakeLock(id) => TakeLockKeepsInv(s, r, init, c, id);
    case DropLock(id) => DropLockKeepsInv(s, r, init, c, id);
    case SchedAcquire => SchedLockKeepsInv(s, r, init, c);
    case SchedRelease => SchedLockKeepsInv(s, r, init, c);
    case Dispatch(p) => DispatchKeepsInv(s, r, init, c, p);
    case IrqWakeup(chan) => IrqWakeupKeepsInv(s, r, init, chan);
  }

  lemma ForkKeepsInv(s: State, init: nat, c: nat, p: nat, step: ForkStep)
    requires Inv(s, init) && Runs(s, c, p) && ForkEnabled(s, p, step)
    ensures Inv(DoFork(s, c, p, step), init)
  {
    var r := DoFork(s, c, p, step);
    match step
    case DoAlloc(k) =>
      if k < |s.tab| { AllocKeepsInv(s, r, init, c, p, k); } else { ReturnKeepsInv(s, r, init, c, p); }
    case Adopt => AdoptKeepsInv(s, r, init, c, p, s.pc[p].child);
    case GiveUp => GiveUpKeepsInv(s, r, init, c, p, s.pc[p].child);
    case AcquireStart => AcquireStartKeepsInv(s, r, init, c, p);
    case DoStart(k) => StartKeepsInv(s, r, init, c, p, k);
  }

  lemma TableKeepsInv(s: State, init: nat, c: nat, p: nat, step: TableStep)
    requires Inv(s, init) && Runs(s, c, p) && TableEnabled(s, init, c, p, step)
    ensures Inv(DoTable(s, init, c, p, step), init)
  {
    var r := DoTable(s, init, c, p, step);
    match step
    case Acquire(op) =>
      if op.Exit? { AcquireExitKeepsInv(s, r, init, c, p); } else { AcquireKeepsInv(s, r, init, c, p, op); }
    case DoWake => DoWakeKeepsInv(s, r, init, c, p);
    case DoKill(k) =>
      if k < |s.tab| { KillKeepsInv(s, r, init, c, p, k); } else { ReturnKeepsInv(s, r, init, c, p); }
    case DoYield => YieldKeepsInv(s, r, init, c, p);
    case Unlock => UnlockKeepsInv(s, r, init, c, p);
    case Swtch => SwtchKeepsInv(s, r, init, c, p);
  }

  lemma ExitKeepsInv(s: State, init: nat, c: nat, p: nat, step: ExitStep)
    requires Inv(s, init) && Runs(s, c, p) && ExitEnabled(s, p, step)
    ensures Inv(DoExit(s, init, c, p, step), init)
  {
    var r := DoExit(s, init, c, p, step);
    match step
    case WakeParent => WakeParentKeepsInv(s, r, init, c, p);
    case PassChildren => PassChildrenKeepsInv(s, r, init, c, p);
    case Die => DieKeepsInv(s, r, init, c, p);
    case DoWait(k) => WaitKeepsInv(s, r, init, c, p, k);
  }

  lemma WaitKeepsInv(s: State, r: State, init: nat, c: nat, p: nat, k: nat)
    requires Inv(s, init) && Runs(s, c, p) && ExitEnabled(s, p, DoWait(k)) && r == DoExit(s, init, c, p, DoWait(k))
    ensures Inv(r, init)
  {
    if k < |s.tab| { ReapKeepsInv(s, r, init, c, p, k); }
    else if !HasChild(s.tab, p) || s.tab[p].killed { ReturnKeepsInv(s, r, init, c, p); }
    else { WaitSleepKeepsInv(s, r, init, c, p); }
  }

  lemma SleepKeepsInv(s: State, init: nat, c: nat, p: nat, step: SleepStep)
    requires Inv(s, init) && Runs(s, c, p) && SleepEnabled(s, c, p, step)
    ensures Inv(DoSleep(s, c, p, step), init)
  {
    var r := DoSleep(s, c, p, step);
    match step
    case SleepCall(chan, id) => SleepCallKeepsInv(s, r, init, c, p, chan, id);
    case SleepAcquire => SleepAcquireKeepsInv(s, r, init, c, p);
    case SleepDrop => SleepDropKeepsInv(s, r, init, c, p);
    case Doze => DozeKeepsInv(s, r, init, c, p);
    case Tidy => TidyKeepsInv(s, r, init, c, p);
    case DoRelock => RelockKeepsInv(s, r, init, c, p);
  }

  lemma StepKeepsInv(s: State, init: nat, step: Step)
    requires Inv(s, init) && Enabled(s, init, step)
    ensures Inv(Do(s, init, step), init)
  {
    match step
    case Cpu(c, cpu) => CpuKeepsInv(s, init, c, cpu);
    case InFork(c, p, fork) => ForkKeepsInv(s, init, c, p, fork);
    case InTable(c, p, table) => TableKeepsInv(s, init, c, p, table);
    case InExit(c, p, exit) => ExitKeepsInv(s, init, c, p, exit);
    case InSleep(c, p, sleep) => SleepKeepsInv(s, init, c, p, sleep);
  }

  // ---------------------------------------------------------------- runs

  /** After userinit(): slot 0 holds the first process, which has not run yet. */
  ghost predicate IsBoot(s: State) {
    && |s.tab| > 0 && Shaped(s) && s.lock == None && s.locks == map[]
    && s.tab[0] == Proc(RUNNABLE, 1, None, None, false, true) && s.pc[0] == Fresh
    && (forall p :: 0 < p < |s.tab| ==> s.tab[p] == Proc(UNUSED, 0, None, None, false, false) && s.pc[p] == Off)
    && (forall p :: 0 <= p < |s.at| ==> s.at[p] == None) && (forall c :: 0 <= c < |s.on| ==> s.on[c] == None)
    && s.nextpid == 2 && s.log == Log(map[1 := 0], multiset{}, multiset{})
  }

  /** The steps can be taken one after the other from s, staying within the invariant's shape. */
  ghost predicate Runnable(s: State, steps: seq<Step>)
    decreases |steps|
  {
    steps == [] || (Shaped(s) && Enabled(s, 0, steps[0]) && Runnable(Do(s, 0, steps[0]), steps[1..]))
  }

  ghost function Exec(s: State, steps: seq<Step>): State
    requires Runnable(s, steps)
    decreases |steps|
  {
    if steps == [] then s else Exec(Do(s, 0, steps[0]), steps[1..])
  }

  lemma BootInv(s: State)
    requires IsBoot(s)
    ensures Inv(s, 0)
  {
    BootThreads(s);
    BootTable(s);
  }

  lemma BootThreads(s: State)
    requires IsBoot(s)
    ensures OnInv(s.on, s.at) && FitInv(s.tab, s.pc, s.at) && HoldInv(s.lock, s.pc, s.at) && SpinInv(s.locks, s.pc, s.at)
    ensures BuildInv(s.tab, s.pc, s.builder) && WaitInv(s.pc)
  {
  }

  lemma BootTable(s: State)
    requires IsBoot(s)
    ensures ParentInv(s.tab, s.pc, 0) && ZombieInv(s.tab, s.pc) && PidInv(s.tab, s.nextpid, s.log)
  {
    forall q | 0 <= q < |s.tab| ensures ParentOk(s.tab, s.pc, 0, q) && NotAwaited(s.tab, s.pc, q) {}
  }

  lemma {:induction false} RunInv(s: State, steps: seq<Step>)
    requires Inv(s, 0) && Runnable(s, steps)
    ensures Inv(Exec(s, steps), 0)
    decreases |steps|
  {
    if steps != [] {
      StepKeepsInv(s, 0, steps[0]);
      RunInv(Do(s, 0, steps[0]), steps[1..]);
    }
  }

  // ---------------------------------------------------------------- exit and wait

  lemma NoZombieChild(s: State, p: nat, q: nat)
    requires Inv(s, 0) && p < |s.tab| && q < |s.tab| && ZombieChild(s.tab[q], p)
    ensures !AsleepInWait(s.tab[p], s.pc[p])
  {
    assert NotAwaited(s.tab, s.pc, q) && Fits(s.tab[p], s.pc[p], s.at[p]);
  }

  predicate AsleepInWait(proc: Proc, pc: PC) { proc.state == SLEEPING && SleepsFor(pc, Table) }

  predicate HasLiveParent(tab: seq<Proc>, q: nat)
    requires q < |tab|
  {
    tab[q].parent.Some? && tab[q].parent.value < |tab| && Alive(tab[tab[q].parent.value].state)
  }

  lemma LiveParent(s: State, q: nat)
    requires Inv(s, 0) && 0 < q < |s.tab| && (Alive(s.tab[q].state) || s.tab[q].state == ZOMBIE)
    ensures HasLiveParent(s.tab, q)
  {
    assert ParentOk(s.tab, s.pc, 0, q);
  }

  /** After any run: a process asleep in wait() has no dead child, and every process but the
      first that is sleeping, runnable, running or dead has a live parent. */
  lemma ExitWaitSafety(boot: State, steps: seq<Step>, s: State)
    requires IsBoot(boot) && Runnable(boot, steps) && s == Exec(boot, steps)
    ensures Shaped(s)
    ensures forall p, q :: 0 <= p < |s.tab| && 0 <= q < |s.tab| && ZombieChild(s.tab[q], p) ==>
      !AsleepInWait(s.tab[p], s.pc[p])
    ensures forall q :: 0 < q < |s.tab| && (Alive(s.tab[q].state) || s.tab[q].state == ZOMBIE) ==>
      HasLiveParent(s.tab, q)
  {
    BootInv(boot);
    RunInv(boot, steps);
    forall p, q | 0 <= p < |s.tab| && 0 <= q < |s.tab| && ZombieChild(s.tab[q], p)
      ensures !AsleepInWait(s.tab[p], s.pc[p])
    {
      NoZombieChild(s, p, q);
    }
    forall q | 0 < q < |s.tab| && (Alive(s.tab[q].state) || s.tab[q].state == ZOMBIE)
      ensures HasLiveParent(s.tab, q)
    {
      LiveParent(s, q);
    }
  }

  /** After any run: no thread runs on a freed kernel stack; no pid exits twice or is reaped more
      often than it exited; and a process that exited and was not reaped is still a zombie. */
  lemma ReapedAtMostOnce(boot: State, steps: seq<Step>, s: State)
    requires IsBoot(boot) && Runnable(boot, steps) && s == Exec(boot, steps)
    ensures forall c :: 0 <= c < |s.on| && s.on[c].Some? ==> s.on[c].value < |s.tab| && s.tab[s.on[c].value].kstack
    ensures forall x :: s.log.reaps[x] <= s.log.exits[x] <= 1
    ensures forall x :: s.log.exits[x] > s.log.reaps[x] ==> IsZombie(s.tab, s.log, x)
  {
    BootInv(boot);
    RunInv(boot, steps);
    OnStacks(s);
  }

  lemma OnStacks(s: State)
    requires Inv(s, 0)
    ensures forall c :: 0 <= c < |s.on| && s.on[c].Some? ==> s.on[c].value < |s.tab| && s.tab[s.on[c].value].kstack
  {
  }

  /** wait() frees a kernel stack only when no CPU is executing on it, and what it reaps is its
      own child, which exited and was not reaped before. */
  lemma ReapIsSafe(boot: State, steps: seq<Step>, s: State, c: nat, p: nat, k: nat)
    requires IsBoot(boot) && Runnable(boot, steps) && s == Exec(boot, steps)
    requires Shaped(s) && Enabled(s, 0, InExit(c, p, DoWait(k))) && k < |s.tab|
    ensures forall d :: 0 <= d < |s.on| ==> s.on[d] != Some(k)
    ensures s.tab[k].parent == Some(p) && s.log.exits[s.tab[k].pid] == 1 && s.log.reaps[s.tab[k].pid] == 0
  {
    WaitFinds(s, c, p, k);
    Reached(boot, steps, s);
    DeadIsOff(s, c, p, k);
  }

  lemma WaitFinds(s: State, c: nat, p: nat, k: nat)
    requires Shaped(s) && Enabled(s, 0, InExit(c, p, DoWait(k))) && k < |s.tab|
    ensures Runs(s, c, p) && s.pc[p].Locked? && ZombieChild(s.tab[k], p)
  {
  }

  lemma DeadIsOff(s: State, c: nat, p: nat, k: nat)
    requires Inv(s, 0) && Runs(s, c, p) && s.pc[p].Locked? && k < |s.tab| && ZombieChild(s.tab[k], p)
    ensures forall d :: 0 <= d < |s.on| ==> s.on[d] != Some(k)
    ensures s.log.exits[s.tab[k].pid] == 1 && s.log.reaps[s.tab[k].pid] == 0
  {
    DeadChild(s, 0, c, p, k);
    assert PidOk(s.tab[k], k, s.nextpid, s.log);
  }

  lemma BootLocks(s: State)
    requires IsBoot(s)
    ensures LocksInv(s)
  {
  }

  lemma {:induction false} RunLocks(s: State, steps: seq<Step>)
    requires Inv(s, 0) && LocksInv(s) && Runnable(s, steps)
    ensures LocksInv(Exec(s, steps))
    decreases |steps|
  {
    if steps != [] {
      StepKeepsInv(s, 0, steps[0]);
      OffCpuHolds(s, 0, steps[0]);
      StepKeepsLocks(s, 0, steps[0]);
      RunLocks(Do(s, 0, steps[0]), steps[1..]);
    }
  }

  lemma Reached(boot: State, steps: seq<Step>, s: State)
    requires IsBoot(boot) && Runnable(boot, steps) && s == Exec(boot, steps)
    ensures Inv(s, 0) && LocksInv(s)
  {
    BootInv(boot);
    RunInv(boot, steps);
    BootLocks(boot);
    RunLocks(boot, steps);
  }

  predicate CallsSched(pc: PC) { pc.Dozing? || pc.Yielding? || pc.Dying? }

  /** sched()'s own tests: ptable.lock held by this CPU, no other lock held by it, not RUNNING. */
  predicate SchedOk(s: State, c: nat, p: nat)
    requires p < |s.tab|
  {
    s.lock == Some(c) && NoOtherLock(s.locks, c) && s.tab[p].state != RUNNING
  }

  lemma SchedOkNow(s: State, c: nat, p: nat)
    requires Inv(s, 0) && LocksInv(s) && Runs(s, c, p) && CallsSched(s.pc[p])
    ensures p < |s.tab| && SchedOk(s, c, p)
  {
    Running(s, 0, c, p);
    Carried(s, c, p);
  }

  lemma DeadNotRunnable(s: State, p: nat)
    requires Inv(s, 0) && p < |s.pc| && s.pc[p] == Dead
    ensures p < |s.tab| && s.tab[p].state == ZOMBIE
  {
    assert Fits(s.tab[p], s.pc[p], s.at[p]);
  }

  lemma DeadNotDispatched(s: State, c: nat, p: nat)
    requires Inv(s, 0) && p < |s.pc| && s.pc[p] == Dead
    ensures !Enabled(s, 0, Cpu(c, Dispatch(p)))
  {
    DeadNotRunnable(s, p);
  }

  /** What sched() checks always holds where sleep, yield and exit call it, in interrupts too:
      this CPU holds ptable.lock and no other lock, and the state is no longer RUNNING; and a
      dead process is never switched to, so exit() never returns from sched(). */
  lemma SchedChecksHold(boot: State, steps: seq<Step>, s: State, c: nat, p: nat)
    requires IsBoot(boot) && Runnable(boot, steps) && s == Exec(boot, steps) && p < |s.pc|
    ensures Shaped(s)
    ensures Runs(s, c, p) && CallsSched(s.pc[p]) ==> SchedOk(s, c, p)
    ensures s.pc[p] == Dead ==> !Enabled(s, 0, Cpu(c, Dispatch(p)))
  {
    Reached(boot, steps, s);
    SchedState(s, c, p);
  }

  lemma SchedState(s: State, c: nat, p: nat)
    requires Inv(s, 0) && LocksInv(s) && p < |s.pc|
    ensures Shaped(s) && (Runs(s, c, p) && CallsSched(s.pc[p]) ==> SchedOk(s, c, p))
    ensures s.pc[p] == Dead ==> !Enabled(s, 0, Cpu(c, Dispatch(p)))
  {
    if Runs(s, c, p) && CallsSched(s.pc[p]) { SchedOkNow(s, c, p); }
    if s.pc[p] == Dead { DeadNotDispatched(s, c, p); }
  }

  // ---------------------------------------------------------------- fork is preempted

  /** A process that has a child under construction, and that a timer interrupt has switched off. */
  predicate SwitchedOffBuilder(s: State, p: nat, k: nat) {
    && p < |s.tab| && k < |s.tab| && Shaped(s) && s.tab[p].state == RUNNABLE && s.at[p] == None
    && s.pc[p] == Yielded(ToBuild(k)) && s.tab[k].state == EMBRYO && s.builder[k] == p
  }

  ghost predicate Reaches(s: State, r: State) {
    exists steps :: Runnable(s, steps) && Exec(s, steps) == r
  }

  lemma {:induction false} OneMore(s: State, steps: seq<Step>, last: Step)
    requires Runnable(s, steps) && Shaped(Exec(s, steps)) && Enabled(Exec(s, steps), 0, last)
    ensures Runnable(s, steps + [last]) && Exec(s, steps + [last]) == Do(Exec(s, steps), 0, last)
    decreases |steps|
  {
    if steps == [] {
      assert steps + [last] == [last];
    } else {
      OneMore(Do(s, 0, steps[0]), steps[1..], last);
      assert (steps + [last])[1..] == steps[1..] + [last];
    }
  }

  lemma ReachNext(s: State, r: State, step: Step)
    requires Reaches(s, r) && Shaped(r) && Enabled(r, 0, step)
    ensures Reaches(s, Do(r, 0, step))
  {
    var steps :| Runnable(s, steps) && Exec(s, steps) == r;
    OneMore(s, steps, step);
  }

  lemma ReachCpu(s: State, r: State, c: nat, step: CpuStep)
    requires Reaches(s, r) && Shaped(r) && CpuEnabled(r, c, step)
    ensures Reaches(s, DoCpu(r, c, step))
  {
    ReachNext(s, r, Cpu(c, step));
  }

  lemma ReachTable(s: State, r: State, c: nat, p: nat, step: TableStep)
    requires Reaches(s, r) && Shaped(r) && Runs(r, c, p) && TableEnabled(r, 0, c, p, step)
    ensures Reaches(s, DoTable(r, 0, c, p, step))
  {
    ReachNext(s, r, InTable(c, p, step));
  }

  lemma ReachFork(s: State, r: State, c: nat, p: nat, step: ForkStep)
    requires Reaches(s, r) && Shaped(r) && Runs(r, c, p) && ForkEnabled(r, p, step)
    ensures Reaches(s, DoFork(r, c, p, step))
  {
    ReachNext(s, r, InFork(c, p, step));
  }

  /** The first process alone, on the first CPU or off it, at the given point. */
  predicate Alone(s: State, st: ProcState, pc: PC, on: bool, lock: Option<nat>) {
    && |s.tab| > 1 && |s.on| > 0 && Shaped(s) && s.locks == map[] && s.lock == lock
    && s.tab[0].state == st && s.pc[0] == pc && s.at[0] == (if on then Some(0) else None) && s.on[0] == (if on then Some(0) else None)
  }

  lemma BootToCode(boot: State) returns (s: State)
    requires IsBoot(boot) && |boot.tab| > 1 && |boot.on| > 0
    ensures Reaches(boot, s) && Alone(s, RUNNING, Code, true, None) && s.tab[1].state == UNUSED
  {
    var none: seq<Step> := [];
    assert Runnable(boot, none) && Exec(boot, none) == boot;
    ReachCpu(boot, boot, 0, SchedAcquire);
    s := DoCpu(boot, 0, SchedAcquire);
    ReachCpu(boot, s, 0, Dispatch(0));
    s := DoCpu(s, 0, Dispatch(0));
    ReachTable(boot, s, 0, 0, Unlock);
    s := DoTable(s, 0, 0, 0, Unlock);
  }

  lemma CodeToBuild(boot: State, s0: State) returns (s: State)
    requires Reaches(boot, s0) && Alone(s0, RUNNING, Code, true, None) && s0.tab[1].state == UNUSED
    ensures Reaches(boot, s) && Alone(s, RUNNING, Build(1), true, None) && s.tab[1].state == EMBRYO && s.builder[1] == 0
  {
    ReachTable(boot, s0, 0, 0, Acquire(Alloc));
    s := DoTable(s0, 0, 0, 0, Acquire(Alloc));
    ReachFork(boot, s, 0, 0, DoAlloc(1));
    s := DoFork(s, 0, 0, DoAlloc(1));
    ReachTable(boot, s, 0, 0, Unlock);
    s := DoTable(s, 0, 0, 0, Unlock);
  }

  lemma BuildToYielded(boot: State, s0: State) returns (s: State)
    requires Reaches(boot, s0) && Alone(s0, RUNNING, Build(1), true, None) && s0.tab[1].state == EMBRYO && s0.builder[1] == 0
    ensures Reaches(boot, s) && SwitchedOffBuilder(s, 0, 1)
  {
    ReachTable(boot, s0, 0, 0, Acquire(Yield(ToBuild(1))));
    s := DoTable(s0, 0, 0, 0, Acquire(Yield(ToBuild(1))));
    ReachTable(boot, s, 0, 0, DoYield);
    s := DoTable(s, 0, 0, 0, DoYield);
    ReachTable(boot, s, 0, 0, Swtch);
    s := DoTable(s, 0, 0, 0, Swtch);
  }

  /** Interrupts land in fork() between its critical sections: the first process can be switched
      off while it builds its child. */
  lemma ForkIsPreempted(boot: State) returns (s: State)
    requires IsBoot(boot) && |boot.tab| > 1 && |boot.on| > 0
    ensures Reaches(boot, s) && SwitchedOffBuilder(s, 0, 1)
  {
    s := BootToCode(boot);
    s := CodeToBuild(boot, s);
    s := BuildToYielded(boot, s);
  }

  // ---------------------------------------------------------------- no lost wakeup

  /** The step is a wakeup(chan) by a thread or an interrupt handler whose CPU holds lock id. */
  predicate WakesUnder(s: State, step: Step, chan: Chan, id: nat) {
    && id in s.locks
    && match step
       case Cpu(c, cpu) => cpu == IrqWakeup(chan) && s.locks[id] == c
       case InTable(c, p, table) => table.DoWake? && p < |s.pc| && s.pc[p].Locked? && s.pc[p].op.Wake? && s.pc[p].op.chan == chan && s.locks[id] == c
       case _ => false
  }

  predicate Awake(st: ProcState) { st == RUNNABLE || st == RUNNING }

  lemma SleeperSettled(s: State, step: Step, chan: Chan, id: nat, p: nat)
    requires Inv(s, 0) && Enabled(s, 0, step) && WakesUnder(s, step, chan, id)
    requires p < |s.pc| && s.pc[p].InSleepCall(chan, Other(id))
    ensures Shaped(s) && (s.pc[p].Asleep? || s.pc[p].Resumed?)
    ensures (s.tab[p].state == SLEEPING && s.tab[p].chan == Some(chan)) || Awake(s.tab[p].state)
  {
    assert Fits(s.tab[p], s.pc[p], s.at[p]);
    if step.InTable? {
      Running(s, 0, step.c, step.p);
      Exclusive(s, 0, step.c, step.p);
    }
  }

  lemma WakeLeavesAwake(s: State, step: Step, chan: Chan, id: nat, p: nat)
    requires Shaped(s) && Enabled(s, 0, step) && WakesUnder(s, step, chan, id) && p < |s.pc|
    requires s.pc[p].Asleep? || s.pc[p].Resumed?
    requires (s.tab[p].state == SLEEPING && s.tab[p].chan == Some(chan)) || Awake(s.tab[p].state)
    ensures var r := Do(s, 0, step); p < |r.pc| && p < |r.tab| && r.pc[p] == s.pc[p] && Awake(r.tab[p].state)
  {
  }

  /** The wakeup finds every process that has called sleep(chan, lk) either SLEEPING on chan or
      already woken, never still on its way to sleep, and leaves it awake. */
  lemma WakeupFindsSleeper(s: State, step: Step, chan: Chan, id: nat, p: nat)
    requires Inv(s, 0) && Enabled(s, 0, step) && WakesUnder(s, step, chan, id)
    requires p < |s.pc| && s.pc[p].InSleepCall(chan, Other(id))
    ensures s.pc[p].Asleep? || s.pc[p].Resumed?
    ensures (s.tab[p].state == SLEEPING && s.tab[p].chan == Some(chan)) || Awake(s.tab[p].state)
    ensures var r := Do(s, 0, step); r.pc[p] == s.pc[p] && Awake(r.tab[p].state)
  {
    SleeperSettled(s, step, chan, id, p);
    WakeLeavesAwake(s, step, chan, id, p);
  }

  /** If p is still inside the call after the step, it is still awake. */
  predicate StillAwake(r: State, p: nat, chan: Chan, lk: Lk) {
    && p < |r.pc| && p < |r.tab|
    && (r.pc[p].InSleepCall(chan, lk) ==> (r.pc[p].Asleep? || r.pc[p].Resumed?) && Awake(r.tab[p].state))
  }

  predicate WokenInSleep(s: State, p: nat, chan: Chan, lk: Lk) {
    && p < |s.pc| && p < |s.tab| && s.pc[p].InSleepCall(chan, lk)
    && (s.pc[p].Asleep? || s.pc[p].Resumed?) && Awake(s.tab[p].state)
  }

  lemma CpuStillAwake(s: State, c: nat, step: CpuStep, p: nat, chan: Chan, lk: Lk)
    requires Shaped(s) && CpuEnabled(s, c, step) && WokenInSleep(s, p, chan, lk)
    ensures StillAwake(DoCpu(s, c, step), p, chan, lk)
  {
  }

  lemma ForkStillAwake(s: State, c: nat, q: nat, step: ForkStep, p: nat, chan: Chan, lk: Lk)
    requires Shaped(s) && Runs(s, c, q) && ForkEnabled(s, q, step) && WokenInSleep(s, p, chan, lk)
    requires ChildOf(s.pc[q]) != Some(p)
    ensures StillAwake(DoFork(s, c, q, step), p, chan, lk)
  {
  }

  lemma TableStillAwake(s: State, c: nat, q: nat, step: TableStep, p: nat, chan: Chan, lk: Lk)
    requires Shaped(s) && Runs(s, c, q) && TableEnabled(s, 0, c, q, step) && WokenInSleep(s, p, chan, lk)
    ensures StillAwake(DoTable(s, 0, c, q, step), p, chan, lk)
  {
  }

  lemma ExitStillAwake(s: State, c: nat, q: nat, step: ExitStep, p: nat, chan: Chan, lk: Lk)
    requires Shaped(s) && Runs(s, c, q) && ExitEnabled(s, q, step) && WokenInSleep(s, p, chan, lk)
    ensures StillAwake(DoExit(s, 0, c, q, step), p, chan, lk)
  {
  }

  lemma SleepStillAwake(s: State, c: nat, q: nat, step: SleepStep, p: nat, chan: Chan, lk: Lk)
    requires Shaped(s) && Runs(s, c, q) && SleepEnabled(s, c, q, step) && WokenInSleep(s, p, chan, lk)
    ensures StillAwake(DoSleep(s, c, q, step), p, chan, lk)
  {
  }

  /** Once woken, a process does not sleep again within the same call of sleep(). */
  lemma AwakeStaysAwake(s: State, step: Step, p: nat, chan: Chan, lk: Lk)
    requires Inv(s, 0) && Enabled(s, 0, step) && WokenInSleep(s, p, chan, lk)
    ensures StillAwake(Do(s, 0, step), p, chan, lk)
  {
    match step
    case Cpu(c, cpu) => CpuStillAwake(s, c, cpu, p, chan, lk);
    case InFork(c, q, fork) =>
      if ChildOf(s.pc[q]) == Some(p) { Building(s, 0, q, p); }
      ForkStillAwake(s, c, q, fork, p, chan, lk);
    case InTable(c, q, table) => TableStillAwake(s, c, q, table, p, chan, lk);
    case InExit(c, q, exit) => ExitStillAwake(s, c, q, exit, p, chan, lk);
    case InSleep(c, q, sleep) => SleepStillAwake(s, c, q, sleep, p, chan, lk);
  }

  /** p stays inside its call of sleep(chan, lk) throughout the steps. */
  ghost predicate StaysInSleep(s: State, steps: seq<Step>, p: nat, chan: Chan, lk: Lk)
    requires Runnable(s, steps)
    decreases |steps|
  {
    && p < |s.pc| && s.pc[p].InSleepCall(chan, lk)
    && (steps != [] ==> StaysInSleep(Do(s, 0, steps[0]), steps[1..], p, chan, lk))
  }

  lemma {:induction false} AwakeUntilReturn(s: State, steps: seq<Step>, p: nat, chan: Chan, lk: Lk)
    requires Inv(s, 0) && Runnable(s, steps) && StaysInSleep(s, steps, p, chan, lk)
    requires (s.pc[p].Asleep? || s.pc[p].Resumed?) && Awake(s.tab[p].state)
    ensures var r := Exec(s, steps); p < |r.tab| && Awake(r.tab[p].state)
    decreases |steps|
  {
    if steps != [] {
      StepKeepsInv(s, 0, steps[0]);
      AwakeStaysAwake(s, steps[0], p, chan, lk);
      AwakeUntilReturn(Do(s, 0, steps[0]), steps[1..], p, chan, lk);
    }
  }

  /** No lost wakeup, for any number of processes and CPUs and any interleaving. Take any run up
      to a wakeup(chan) issued under lk while p is inside sleep(chan, lk), and any continuation
      during which p has not yet returned from that call: at its end p is not sleeping. */
  lemma NoLostWakeup(boot: State, before: seq<Step>, wake: Step, after: seq<Step>, p: nat, chan: Chan, id: nat)
    requires IsBoot(boot) && Runnable(boot, before)
    requires var s := Exec(boot, before);
      && Shaped(s) && Enabled(s, 0, wake) && WakesUnder(s, wake, chan, id)
      && p < |s.pc| && s.pc[p].InSleepCall(chan, Other(id))
      && Runnable(Do(s, 0, wake), after) && StaysInSleep(Do(s, 0, wake), after, p, chan, Other(id))
    ensures var r := Exec(Do(Exec(boot, before), 0, wake), after); p < |r.tab| && Awake(r.tab[p].state)
  {
    var s := Exec(boot, before);
    BootInv(boot);
    RunInv(boot, before);
    WakeupFindsSleeper(s, wake, chan, id, p);
    StepKeepsInv(s, 0, wake);
    AwakeUntilReturn(Do(s, 0, wake), after, p, chan, Other(id));
  }
}
