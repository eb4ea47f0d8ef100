/** The kernel's threads as a step machine (proc.c, spinlock.c): any number of process slots
    and CPUs, each step one stretch of code between two points where another CPU can
    interfere. The scheduler hands ptable.lock to the thread it switches to, and a thread that
    switches away hands it back. */
module ProcMachine {
  import opened Options
  import opened ProcTable

  /** The lock handed to sleep(): ptable.lock itself (from wait), or any other spinlock. */
  datatype Lk = Table | Other(id: nat)

  /** Where a thread goes after releasing ptable.lock. */
  datatype Next = ToCode | ToBuild(child: nat) | ToAdopted(child: nat) | ToRelock(id: nat)

  /** What a thread holding ptable.lock has taken it for. A wakeup or a yield may come from an
      interrupt, which returns to the point it interrupted. */
  datatype Op =
    Alloc | Start(child: nat) | Wake(chan: Chan, back: Next) | Kill(pid: nat) | Yield(back: Next) | Exit | Wait

  /** The point a process's kernel thread has reached. */
  datatype PC =
    | Off                          // no thread: the slot is UNUSED or EMBRYO
    | Code                         // anywhere else, in the kernel or in user mode
    | Build(child: nat)            // fork: slot allocated, child under construction
    | Adopted(child: nat)          // fork: np->parent set
    | Enter(chan: Chan, id: nat)   // sleep: before acquire(&ptable.lock), lk held
    | Relock(id: nat)              // sleep: before acquire(lk)
    | Locked(op: Op)
    | ParentWoken                  // exit: after wakeup1(proc->parent)
    | ChildrenPassed               // exit: after the loop over abandoned children
    | Both(chan: Chan, id: nat)    // sleep: holds ptable.lock and lk
    | Ready(chan: Chan, lk: Lk)    // sleep: lk released, state still RUNNING
    | Dozing(chan: Chan, lk: Lk)   // sleep: SLEEPING, before swtch
    | Yielding(back: Next)         // yield: RUNNABLE, before swtch
    | Dying                        // exit: ZOMBIE, before swtch
    | Resumed(chan: Chan, lk: Lk)  // sleep: back from swtch
    | Unlocking(next: Next)
    | Asleep(chan: Chan, lk: Lk)   // switched away inside sleep
    | Yielded(back: Next)          // switched away inside yield
    | Fresh                        // a child that has never run
    | Dead
  {
    /** The thread owns ptable.lock. */
    predicate Holds() {
      || Locked? || ParentWoken? || ChildrenPassed? || Both? || Ready? || Dozing? || Yielding? || Dying?
      || Resumed? || Unlocking?
    }

    /** Interrupts may land here: no spinlock of the modelled routines is held. */
    predicate Open() { Code? || Build? || Adopted? || Relock? }

    /** The thread is executing on some CPU. */
    predicate OnCpu() { Holds() || Open() || Enter? }

    /** Between the call of sleep(chan, lk) and the moment the thread runs again. */
    predicate InSleepCall(ch: Chan, l: Lk) {
      || ((Enter? || Both?) && chan == ch && Other(id) == l)
      || ((Ready? || Dozing? || Asleep? || Resumed?) && chan == ch && lk == l)
    }
  }

  /** History: which slot each pid was given to, and how often each pid exited and was reaped. */
  datatype Log = Log(slotOf: map<nat, nat>, exits: multiset<nat>, reaps: multiset<nat>)

  /** `on` is the process each CPU is executing, none in the scheduler; `at` is its converse.
      `locks` maps every other held spinlock to the CPU holding it. `builder` is the slot of
      the process that allocated each EMBRYO. */
  datatype State = State(
    tab: seq<Proc>, pc: seq<PC>, at: seq<Option<nat>>, on: seq<Option<nat>>,
    lock: Option<nat>, locks: map<nat, nat>, builder: seq<nat>, nextpid: nat, log: Log)

  /** What a CPU does outside the modelled routines: other spinlocks, the scheduler, and a wakeup
      from an interrupt handler in the scheduler. */
  datatype CpuStep =
    TakeLock(id: nat) | DropLock(id: nat) | SchedAcquire | SchedRelease | Dispatch(p: nat) | IrqWakeup(chan: Chan)
  datatype ForkStep = DoAlloc(k: nat) | Adopt | GiveUp | AcquireStart | DoStart(k: nat)
  datatype TableStep = Acquire(op: Op) | DoWake | DoKill(k: nat) | DoYield | Unlock | Swtch
  datatype ExitStep = WakeParent | PassChildren | Die | DoWait(k: nat)
  datatype SleepStep = SleepCall(chan: Chan, id: nat) | SleepAcquire | SleepDrop | Doze | Tidy | DoRelock

  /** A step of CPU c, or of process p's kernel thread running on CPU c. */
  datatype Step =
    | Cpu(c: nat, cpu: CpuStep)
    | InFork(c: nat, p: nat, fork: ForkStep)
    | InTable(c: nat, p: nat, table: TableStep)
    | InExit(c: nat, p: nat, exit: ExitStep)
    | InSleep(c: nat, p: nat, sleep: SleepStep)

  // ---------------------------------------------------------------- enabling

  predicate Runs(s: State, c: nat, p: nat) {
    c < |s.on| && p < |s.pc| && s.on[c] == Some(p)
  }

  predicate InScheduler(s: State, c: nat) {
    c < |s.on| && s.on[c] == None
  }

  /** The CPU holds no spinlock besides ptable.lock: at sched(), ncli == 1. */
  predicate NoOtherLock(locks: map<nat, nat>, c: nat) {
    forall id :: id in locks ==> locks[id] != c
  }

  /** Besides ptable.lock, the CPU holds lock id and no other. */
  predicate OnlyLock(locks: map<nat, nat>, c: nat, id: nat) {
    id in locks && locks[id] == c && forall x :: x in locks && locks[x] == c ==> x == id
  }

  /** Who takes ptable.lock, and from where: wakeup and yield also run in interrupt handlers, on
      top of whatever the thread was doing; exit, wait and yield are called without any lock. */
  predicate MayAcquire(pc: PC, op: Op, locks: map<nat, nat>, c: nat) {
    match op
    case Wake(_, back) => pc.Open() && back == Before(pc)
    case Yield(back) => pc.Open() && back == Before(pc) && NoOtherLock(locks, c)
    case Exit | Wait => pc == Code && NoOtherLock(locks, c)
    case Alloc | Kill(_) => pc == Code
    case Start(_) => false
  }

  /** The point an interrupt returns to. */
  function Before(pc: PC): Next {
    match pc
    case Build(k) => ToBuild(k)
    case Adopted(k) => ToAdopted(k)
    case Relock(id) => ToRelock(id)
    case _ => ToCode
  }

  predicate Unused(p: Proc) { p.state == UNUSED }

  predicate CpuEnabled(s: State, c: nat, step: CpuStep) {
    match step
    case TakeLock(id) => c < |s.on| && id !in s.locks && Interruptible(s, c)
    case DropLock(id) => c < |s.on| && id in s.locks && s.locks[id] == c && Interruptible(s, c)
    case SchedAcquire => InScheduler(s, c) && s.lock == None && NoOtherLock(s.locks, c)
    case SchedRelease => InScheduler(s, c) && s.lock == Some(c)
    case Dispatch(p) => InScheduler(s, c) && s.lock == Some(c) && p < |s.tab| && s.tab[p].state == RUNNABLE
    case IrqWakeup(chan) => InScheduler(s, c) && s.lock == None
  }

  predicate ForkEnabled(s: State, p: nat, step: ForkStep)
    requires p < |s.pc|
  {
    match step
    case DoAlloc(k) => s.pc[p] == Locked(Alloc) && First(s.tab, Unused, k)
    case Adopt => s.pc[p].Build? && s.pc[p].child < |s.tab|
    case GiveUp => s.pc[p].Build? && s.pc[p].child < |s.tab|
    case AcquireStart => s.pc[p].Adopted? && s.lock == None
    case DoStart(k) => s.pc[p] == Locked(Start(k)) && k < |s.tab|
  }

  predicate TableEnabled(s: State, init: nat, c: nat, p: nat, step: TableStep)
    requires p < |s.pc|
  {
    match step
    case Acquire(op) => s.lock == None && MayAcquire(s.pc[p], op, s.locks, c) && (op.Exit? ==> p != init)
    case DoWake => s.pc[p].Locked? && s.pc[p].op.Wake?
    case DoKill(k) =>
      && s.pc[p].Locked? && s.pc[p].op.Kill?
      && var pid := s.pc[p].op.pid; First(s.tab, (q: Proc) => q.pid == pid, k)
    case DoYield => s.pc[p].Locked? && s.pc[p].op.Yield?
    case Unlock => s.pc[p].Unlocking?
    case Swtch => s.pc[p].Dozing? || s.pc[p].Yielding? || s.pc[p].Dying?
  }

  predicate ExitEnabled(s: State, p: nat, step: ExitStep)
    requires p < |s.pc|
  {
    match step
    case WakeParent => s.pc[p] == Locked(Exit)
    case PassChildren => s.pc[p] == ParentWoken
    case Die => s.pc[p] == ChildrenPassed
    case DoWait(k) => s.pc[p] == Locked(Wait) && First(s.tab, (q: Proc) => ZombieChild(q, p), k)
  }

  predicate SleepEnabled(s: State, c: nat, p: nat, step: SleepStep)
    requires p < |s.pc|
  {
    match step
    case SleepCall(chan, id) => s.pc[p] == Code && OnlyLock(s.locks, c, id)
    case SleepAcquire => s.pc[p].Enter? && s.lock == None
    case SleepDrop => s.pc[p].Both?
    case Doze => s.pc[p].Ready?
    case Tidy => s.pc[p].Resumed?
    case DoRelock => s.pc[p].Relock? && s.pc[p].id !in s.locks
  }

  predicate Enabled(s: State, init: nat, step: Step) {
    match step
    case Cpu(c, cpu) => CpuEnabled(s, c, cpu)
    case InFork(c, p, fork) => Runs(s, c, p) && ForkEnabled(s, p, fork)
    case InTable(c, p, table) => Runs(s, c, p) && TableEnabled(s, init, c, p, table)
    case InExit(c, p, exit) => Runs(s, c, p) && ExitEnabled(s, p, exit)
    case InSleep(c, p, sleep) => Runs(s, c, p) && SleepEnabled(s, c, p, sleep)
  }

  /** Other locks are taken and dropped by code outside the modelled routines: by the running
      thread or an interrupt handler on top of it, or by an interrupt handler on a CPU whose
      scheduler does not hold ptable.lock. */
  predicate Interruptible(s: State, c: nat)
    requires c < |s.on|
  {
    if s.on[c] == None then s.lock != Some(c) else s.on[c].value < |s.pc| && s.pc[s.on[c].value].Open()
  }

  // ---------------------------------------------------------------- effects

  function Goto(s: State, p: nat, pc: PC): State
    requires p < |s.pc|
  {
    s.(pc := s.pc[p := pc])
  }

  /** The thread's point after swtch to the scheduler. */
  function Parked(pc: PC): PC {
    match pc
    case Dozing(ch, lk) => Asleep(ch, lk)
    case Yielding(back) => Yielded(back)
    case _ => Dead
  }

  /** The point at which a dispatched thread continues. */
  function Continued(pc: PC): PC {
    match pc
    case Asleep(ch, lk) => Resumed(ch, lk)
    case Yielded(back) => Unlocking(back)
    case _ => Unlocking(ToCode)
  }

  function After(next: Next): PC {
    match next
    case ToCode => Code
    case ToBuild(k) => Build(k)
    case ToAdopted(k) => Adopted(k)
    case ToRelock(id) => Relock(id)
  }

  function SwitchTo(s: State, c: nat, p: nat): State
    requires p < |s.tab| == |s.pc| == |s.at| && c < |s.on|
  {
    s.(tab := s.tab[p := s.tab[p].(state := RUNNING)], pc := s.pc[p := Continued(s.pc[p])],
       on := s.on[c := Some(p)], at := s.at[p := Some(c)])
  }

  /** allocproc, under the lock. */
  function AllocSlot(s: State, p: nat, k: nat): State
    requires p < |s.pc| && k < |s.tab| == |s.builder|
  {
    s.(pc := s.pc[p := Unlocking(ToBuild(k))],
       tab := s.tab[k := s.tab[k].(state := EMBRYO, pid := s.nextpid)], nextpid := s.nextpid + 1,
       builder := s.builder[k := p], log := s.log.(slotOf := s.log.slotOf[s.nextpid := k]))
  }

  /** fork, after the kernel stack and the address space have been obtained. */
  function AdoptChild(s: State, p: nat, k: nat): State
    requires p < |s.pc| && k < |s.tab|
  {
    s.(pc := s.pc[p := Adopted(k)], tab := s.tab[k := s.tab[k].(parent := Some(p), kstack := true)])
  }

  /** fork, when memory has run out: note that no lock is held. */
  function DropChild(s: State, p: nat, k: nat): State
    requires p < |s.pc| && k < |s.tab|
  {
    s.(pc := s.pc[p := Code], tab := s.tab[k := s.tab[k].(state := UNUSED, kstack := false)])
  }

  function BecomeZombie(s: State, p: nat): State
    requires p < |s.pc| == |s.tab|
  {
    s.(pc := s.pc[p := Dying], tab := s.tab[p := s.tab[p].(state := ZOMBIE)],
       log := s.log.(exits := s.log.exits + multiset{s.tab[p].pid}))
  }

  function Reap(s: State, p: nat, k: nat): State
    requires p < |s.pc| && k < |s.tab| == |s.pc|
  {
    s.(pc := s.pc[k := Off][p := Unlocking(ToCode)], tab := s.tab[k := Reaped(s.tab[k])],
       log := s.log.(reaps := s.log.reaps + multiset{s.tab[k].pid}))
  }

  function WakeParentOf(t: seq<Proc>, p: nat): seq<Proc>
    requires p < |t|
  {
    if t[p].parent.Some? then WakeAll(t, ProcChan(t[p].parent.value)) else t
  }

  predicate Shaped(s: State) { |s.tab| == |s.pc| == |s.at| == |s.builder| }

  function DoCpu(s: State, c: nat, step: CpuStep): State
    requires Shaped(s) && CpuEnabled(s, c, step)
  {
    match step
    case TakeLock(id) => s.(locks := s.locks[id := c])
    case DropLock(id) => s.(locks := s.locks - {id})
    case SchedAcquire => s.(lock := Some(c))
    case SchedRelease => s.(lock := None)
    case Dispatch(p) => SwitchTo(s, c, p)
    case IrqWakeup(chan) => s.(tab := WakeAll(s.tab, chan))
  }

  function DoFork(s: State, c: nat, p: nat, step: ForkStep): State
    requires Shaped(s) && Runs(s, c, p) && ForkEnabled(s, p, step)
  {
    match step
    case DoAlloc(k) => if k == |s.tab| then Goto(s, p, Unlocking(ToCode)) else AllocSlot(s, p, k)
    case Adopt => AdoptChild(s, p, s.pc[p].child)
    case GiveUp => DropChild(s, p, s.pc[p].child)
    case AcquireStart => Goto(s, p, Locked(Start(s.pc[p].child))).(lock := Some(c))
    case DoStart(k) =>
      s.(tab := s.tab[k := s.tab[k].(state := RUNNABLE)], pc := s.pc[k := Fresh][p := Unlocking(ToCode)])
  }

  function DoTable(s: State, init: nat, c: nat, p: nat, step: TableStep): State
    requires Shaped(s) && Runs(s, c, p) && TableEnabled(s, init, c, p, step)
  {
    match step
    case Acquire(op) => Goto(s, p, Locked(op)).(lock := Some(c))
    case DoWake => Goto(s, p, Unlocking(s.pc[p].op.back)).(tab := WakeAll(s.tab, s.pc[p].op.chan))
    case DoKill(k) =>
      if k == |s.tab| then Goto(s, p, Unlocking(ToCode))
      else Goto(s, p, Unlocking(ToCode)).(tab := s.tab[k := Killed(s.tab[k])])
    case DoYield => Goto(s, p, Yielding(s.pc[p].op.back)).(tab := s.tab[p := s.tab[p].(state := RUNNABLE)])
    case Unlock => Goto(s, p, After(s.pc[p].next)).(lock := None)
    case Swtch => s.(pc := s.pc[p := Parked(s.pc[p])], on := s.on[c := None], at := s.at[p := None])
  }

  function DoExit(s: State, init: nat, c: nat, p: nat, step: ExitStep): State
    requires Shaped(s) && Runs(s, c, p) && ExitEnabled(s, p, step)
  {
    match step
    case WakeParent => Goto(s, p, ParentWoken).(tab := WakeParentOf(s.tab, p))
    case PassChildren => Goto(s, p, ChildrenPassed).(tab := Abandon(s.tab, p, init))
    case Die => BecomeZombie(s, p)
    case DoWait(k) =>
      if k < |s.tab| then Reap(s, p, k)
      else if !HasChild(s.tab, p) || s.tab[p].killed then Goto(s, p, Unlocking(ToCode))
      else Goto(s, p, Ready(ProcChan(p), Table))
  }

  function DoSleep(s: State, c: nat, p: nat, step: SleepStep): State
    requires Shaped(s) && Runs(s, c, p) && SleepEnabled(s, c, p, step)
  {
    match step
    case SleepCall(chan, id) => Goto(s, p, Enter(chan, id))
    case SleepAcquire => Goto(s, p, Both(s.pc[p].chan, s.pc[p].id)).(lock := Some(c))
    case SleepDrop => Goto(s, p, Ready(s.pc[p].chan, Other(s.pc[p].id))).(locks := s.locks - {s.pc[p].id})
    case Doze =>
      Goto(s, p, Dozing(s.pc[p].chan, s.pc[p].lk)).(
        tab := s.tab[p := s.tab[p].(chan := Some(s.pc[p].chan), state := SLEEPING)])
    case Tidy =>
      Goto(s, p, if s.pc[p].lk.Table? then Locked(Wait) else Unlocking(ToRelock(s.pc[p].lk.id))).(
        tab := s.tab[p := s.tab[p].(chan := None)])
    case DoRelock => Goto(s, p, Code).(locks := s.locks[s.pc[p].id := c])
  }

  function Do(s: State, init: nat, step: Step): State
    requires Shaped(s) && Enabled(s, init, step)
  {
    match step
    case Cpu(c, cpu) => DoCpu(s, c, cpu)
    case InFork(c, p, fork) => DoFork(s, c, p, fork)
    case InTable(c, p, table) => DoTable(s, init, c, p, table)
    case InExit(c, p, exit) => DoExit(s, init, c, p, exit)
    case InSleep(c, p, sleep) => DoSleep(s, c, p, sleep)
  }
}
