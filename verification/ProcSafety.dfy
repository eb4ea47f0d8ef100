/** What every step of the process machine keeps. The invariant is a conjunction of small
    families, each about one process at a time. */
module ProcSafety {
  import opened Options
  import opened ProcTable
  import opened ProcMachine

  predicate Alive(st: ProcState) { st == SLEEPING || st == RUNNABLE || st == RUNNING }

  // ---------------------------------------------------------------- the families

  /** `on` and `at` are converses, so no process is on two CPUs. */
  ghost predicate OnInv(on: seq<Option<nat>>, at: seq<Option<nat>>) {
    && (forall c :: 0 <= c < |on| && on[c].Some? ==> on[c].value < |at| && at[on[c].value] == Some(c))
    && (forall p :: 0 <= p < |at| && at[p].Some? ==> at[p].value < |on| && on[at[p].value] == Some(p))
  }

  /** A slot's state field agrees with where its thread is. */
  predicate Fits(proc: Proc, pc: PC, at: Option<nat>) {
    && (at.Some? <==> pc.OnCpu())
    && (pc.Off? || proc.kstack)
    && match pc
       case Off => proc.state == UNUSED || proc.state == EMBRYO
       case Dozing(ch, _) => proc.state == SLEEPING && proc.chan == Some(ch)
       case Asleep(ch, _) => proc.chan == Some(ch) && (proc.state == SLEEPING || proc.state == RUNNABLE)
       case Yielding(_) | Yielded(_) | Fresh => proc.state == RUNNABLE
       case Dying | Dead => proc.state == ZOMBIE
       case _ => proc.state == RUNNING
  }

  ghost predicate FitInv(tab: seq<Proc>, pc: seq<PC>, at: seq<Option<nat>>) {
    |tab| == |pc| == |at| && forall p :: 0 <= p < |pc| ==> Fits(tab[p], pc[p], at[p])
  }

  /** A thread that owns ptable.lock runs on the CPU recorded in it. */
  ghost predicate HoldInv(lock: Option<nat>, pc: seq<PC>, at: seq<Option<nat>>) {
    |pc| == |at| && forall p :: 0 <= p < |pc| && pc[p].Holds() ==> lock.Some? && at[p] == lock
  }

  /** A thread entering sleep(chan, lk) still holds lk. */
  ghost predicate SpinInv(locks: map<nat, nat>, pc: seq<PC>, at: seq<Option<nat>>) {
    |pc| == |at| && forall p :: 0 <= p < |pc| && (pc[p].Enter? || pc[p].Both?) ==>
      pc[p].id in locks && at[p] == Some(locks[pc[p].id])
  }

  function ChildAt(next: Next): Option<nat> {
    if next.ToBuild? || next.ToAdopted? then Some(next.child) else None
  }

  /** Where the thread will continue its own work, when an interrupt has come on top of it. */
  function Under(pc: PC): Next {
    match pc
    case Locked(op) => if op.Wake? || op.Yield? then op.back else ToCode
    case Unlocking(next) => next
    case Yielding(back) => back
    case Yielded(back) => back
    case _ => Before(pc)
  }

  /** The slot a thread in fork() is building. */
  function ChildOf(pc: PC): Option<nat> {
    if pc.Locked? && pc.op.Start? then Some(pc.op.child) else ChildAt(Under(pc))
  }

  predicate HasAdopted(pc: PC) { (pc.Locked? && pc.op.Start?) || Under(pc).ToAdopted? }

  predicate EmbryoOk(proc: Proc, k: nat, pc: PC, b: nat) {
    ChildOf(pc) == Some(k) && if HasAdopted(pc) then proc.parent == Some(b) && proc.kstack else proc.parent == None
  }

  /** An EMBRYO belongs to the one process that is building it. */
  ghost predicate BuildInv(tab: seq<Proc>, pc: seq<PC>, builder: seq<nat>) {
    && |tab| == |pc| == |builder|
    && (forall k :: 0 <= k < |tab| && tab[k].state == EMBRYO ==>
        builder[k] < |pc| && EmbryoOk(tab[k], k, pc[builder[k]], builder[k]))
    && (forall p :: 0 <= p < |pc| && ChildOf(pc[p]).Some? ==>
        var k := ChildOf(pc[p]).value; k < |tab| && tab[k].state == EMBRYO && builder[k] == p)
  }

  /** Every child has a live parent other than itself that is not past passing on its children. */
  ghost predicate ParentInv(tab: seq<Proc>, pc: seq<PC>, init: nat) {
    && init < |tab| == |pc| && tab[init].parent == None && Alive(tab[init].state)
    && !pc[init].ParentWoken? && !pc[init].ChildrenPassed? && pc[init] != Locked(Exit)
    && (forall q :: 0 <= q < |tab| ==> ParentOk(tab, pc, init, q))
  }

  predicate ParentOk(tab: seq<Proc>, pc: seq<PC>, init: nat, q: nat)
    requires q < |tab| == |pc|
  {
    && (tab[q].parent.Some? ==>
        var p := tab[q].parent.value; p < |tab| && p != q && Alive(tab[p].state) && !pc[p].ChildrenPassed?)
    && (tab[q].state == UNUSED ==> tab[q].parent == None)
    && (q != init && (Alive(tab[q].state) || tab[q].state == ZOMBIE) ==> tab[q].parent.Some?)
  }

  predicate SleepsFor(pc: PC, lk: Lk) {
    (pc.Ready? || pc.Dozing? || pc.Asleep? || pc.Resumed?) && pc.lk == lk
  }

  /** Only wait() hands ptable.lock to sleep, and it sleeps on its own slot. */
  ghost predicate WaitInv(pc: seq<PC>) {
    forall p :: 0 <= p < |pc| && SleepsFor(pc[p], Table) ==> pc[p].chan == ProcChan(p)
  }

  /** The process has found no dead child and is going to sleep, or is asleep, in wait(). */
  predicate Awaits(proc: Proc, pc: PC) {
    || (pc.Ready? && pc.lk.Table?)
    || (proc.state == SLEEPING && (pc.Dozing? || pc.Asleep?) && pc.lk.Table?)
  }

  /** The process has sent its parent the wakeup of exit(). */
  predicate Leaving(proc: Proc, pc: PC) { proc.state == ZOMBIE || pc.ParentWoken? || pc.ChildrenPassed? }

  /** Nobody waits whose child is dead or has already sent its only wakeup. */
  ghost predicate ZombieInv(tab: seq<Proc>, pc: seq<PC>) {
    |tab| == |pc| && forall q :: 0 <= q < |tab| ==> NotAwaited(tab, pc, q)
  }

  predicate NotAwaited(tab: seq<Proc>, pc: seq<PC>, q: nat)
    requires q < |tab| == |pc|
  {
    tab[q].parent.Some? && tab[q].parent.value < |tab| && Leaving(tab[q], pc[q]) ==>
      !Awaits(tab[tab[q].parent.value], pc[tab[q].parent.value])
  }

  predicate PidOk(proc: Proc, p: nat, nextpid: nat, log: Log) {
    proc.state != UNUSED ==>
      && proc.pid < nextpid && proc.pid in log.slotOf && log.slotOf[proc.pid] == p
      && log.reaps[proc.pid] == 0 && log.exits[proc.pid] == if proc.state == ZOMBIE then 1 else 0
  }

  ghost predicate PidInv(tab: seq<Proc>, nextpid: nat, log: Log) {
    && (forall p :: 0 <= p < |tab| ==> PidOk(tab[p], p, nextpid, log))
    && (forall x :: log.reaps[x] <= log.exits[x] <= 1)
    && (forall x :: x >= nextpid ==> log.exits[x] == 0)
    && (forall x :: log.exits[x] > log.reaps[x] ==> IsZombie(tab, log, x))
  }

  /** A process that exited and was not reaped is still in its slot. */
  predicate IsZombie(tab: seq<Proc>, log: Log, x: nat) {
    && x in log.slotOf && log.slotOf[x] < |tab|
    && tab[log.slotOf[x]].state == ZOMBIE && tab[log.slotOf[x]].pid == x
  }

  ghost predicate Inv(s: State, init: nat) {
    && OnInv(s.on, s.at) && FitInv(s.tab, s.pc, s.at) && (s.lock.Some? ==> s.lock.value < |s.on|)
    && HoldInv(s.lock, s.pc, s.at) && SpinInv(s.locks, s.pc, s.at) && BuildInv(s.tab, s.pc, s.builder)
    && ParentInv(s.tab, s.pc, init) && WaitInv(s.pc) && ZombieInv(s.tab, s.pc) && PidInv(s.tab, s.nextpid, s.log)
  }

  // ---------------------------------------------------------------- mutual exclusion

  ghost predicate NobodyElse(pc: seq<PC>, p: nat) {
    forall q :: 0 <= q < |pc| && q != p ==> !pc[q].Holds()
  }

  lemma Exclusive(s: State, init: nat, c: nat, p: nat)
    requires Inv(s, init) && Runs(s, c, p) && (s.lock == None || s.lock == Some(c))
    ensures NobodyElse(s.pc, p)
  {
  }

  // ---------------------------------------------------------------- one thread moves

  /** What a running thread may do to its own slot: it keeps its parent, pid and child. */
  predicate Steps(old_: Proc, new_: Proc, pc: PC, n: PC) {
    && new_.parent == old_.parent && new_.pid == old_.pid
    && (new_.state == ZOMBIE <==> old_.state == ZOMBIE) && new_.state != UNUSED && old_.state != UNUSED
    && new_.state != EMBRYO && old_.state != EMBRYO
    && ChildOf(n) == ChildOf(pc) && HasAdopted(n) == HasAdopted(pc)
    && !n.ChildrenPassed? && !n.ParentWoken? && n != Locked(Exit)
  }

  lemma HoldMove(lock: Option<nat>, newLock: Option<nat>, pc: seq<PC>, at: seq<Option<nat>>, p: nat, n: PC)
    requires HoldInv(lock, pc, at) && p < |pc| && (n.Holds() ==> newLock.Some? && at[p] == newLock)
    requires newLock == lock || NobodyElse(pc, p)
    ensures HoldInv(newLock, pc[p := n], at)
  {
  }

  lemma SpinMove(locks: map<nat, nat>, newLocks: map<nat, nat>, pc: seq<PC>, at: seq<Option<nat>>, p: nat, n: PC, c: nat)
    requires SpinInv(locks, pc, at) && p < |pc| && OthersKept(locks, newLocks, c)
    requires n.Enter? || n.Both? ==> n.id in newLocks && at[p] == Some(newLocks[n.id])
    requires forall q :: 0 <= q < |at| && q != p ==> at[q] != Some(c)
    ensures SpinInv(newLocks, pc[p := n], at)
  {
  }

  predicate OthersKept(locks: map<nat, nat>, newLocks: map<nat, nat>, c: nat) {
    forall id :: id in locks && locks[id] != c ==> id in newLocks && newLocks[id] == locks[id]
  }

  lemma WaitMove(pc: seq<PC>, p: nat, n: PC)
    requires WaitInv(pc) && p < |pc| && (SleepsFor(n, Table) ==> n.chan == ProcChan(p))
    ensures WaitInv(pc[p := n])
  {
  }

  lemma BuildMove(tab: seq<Proc>, pc: seq<PC>, builder: seq<nat>, p: nat, new_: Proc, n: PC)
    requires BuildInv(tab, pc, builder) && p < |pc| && tab[p].state != EMBRYO && new_.state != EMBRYO
    requires ChildOf(n) == ChildOf(pc[p]) && HasAdopted(n) == HasAdopted(pc[p])
    ensures BuildInv(tab[p := new_], pc[p := n], builder)
  {
  }

  lemma ParentMove(tab: seq<Proc>, pc: seq<PC>, init: nat, p: nat, new_: Proc, n: PC)
    requires ParentInv(tab, pc, init) && p < |pc| && Steps(tab[p], new_, pc[p], n) && Alive(new_.state)
    ensures ParentInv(tab[p := new_], pc[p := n], init)
  {
    var t, m := tab[p := new_], pc[p := n];
    forall q | 0 <= q < |tab| ensures ParentOk(t, m, init, q) {
      assert ParentOk(tab, pc, init, q);
    }
  }

  lemma ZombieMove(tab: seq<Proc>, pc: seq<PC>, p: nat, new_: Proc, n: PC)
    requires ZombieInv(tab, pc) && p < |pc| && Steps(tab[p], new_, pc[p], n) && (Awaits(new_, n) ==> Awaits(tab[p], pc[p]))
    ensures ZombieInv(tab[p := new_], pc[p := n])
  {
    var t, m := tab[p := new_], pc[p := n];
    forall q | 0 <= q < |tab| ensures NotAwaited(t, m, q) {
      assert NotAwaited(tab, pc, q);
    }
  }

  lemma PidMove(tab: seq<Proc>, nextpid: nat, log: Log, p: nat, new_: Proc)
    requires PidInv(tab, nextpid, log) && p < |tab| && PidOk(new_, p, nextpid, log)
    requires tab[p].state == ZOMBIE ==> new_.state == ZOMBIE && new_.pid == tab[p].pid
    ensures PidInv(tab[p := new_], nextpid, log)
  {
    var t := tab[p := new_];
    forall x | log.exits[x] > log.reaps[x] ensures IsZombie(t, log, x) {
      assert IsZombie(tab, log, x);
    }
  }

  /** Everything about one slot that a move of its thread from pc to n must respect. */
  predicate Moves(old_: Proc, new_: Proc, pc: PC, n: PC, p: nat, c: nat, lock: Option<nat>, locks: map<nat, nat>) {
    && Steps(old_, new_, pc, n) && Alive(new_.state) && Fits(new_, n, Some(c))
    && (n.Holds() ==> lock == Some(c)) && (n.Enter? || n.Both? ==> n.id in locks && locks[n.id] == c)
    && (SleepsFor(n, Table) ==> n.chan == ProcChan(p)) && (Awaits(new_, n) ==> Awaits(old_, pc))
  }

  /** A running thread moves to point n, its slot becoming new_. */
  lemma MoveKeepsInv(s: State, r: State, init: nat, c: nat, p: nat, new_: Proc, n: PC)
    requires Inv(s, init) && Runs(s, c, p)
    requires r == s.(tab := s.tab[p := new_], pc := s.pc[p := n], lock := r.lock, locks := r.locks)
    requires r.lock == s.lock || (r.lock == Some(c) && s.lock == None) || (r.lock == None && s.lock == Some(c))
    requires OthersKept(s.locks, r.locks, c) && Moves(s.tab[p], new_, s.pc[p], n, p, c, r.lock, r.locks)
    ensures Inv(r, init)
  {
    if r.lock != s.lock { Exclusive(s, init, c, p); }
    HoldMove(s.lock, r.lock, s.pc, s.at, p, n);
    SpinMove(s.locks, r.locks, s.pc, s.at, p, n, c);
    BuildMove(s.tab, s.pc, s.builder, p, new_, n);
    ParentMove(s.tab, s.pc, init, p, new_, n);
    ZombieMove(s.tab, s.pc, p, new_, n);
    PidMove(s.tab, s.nextpid, s.log, p, new_);
  }

  /** A running thread moves to point n and leaves the table alone. */
  lemma JumpKeepsInv(s: State, r: State, init: nat, c: nat, p: nat, n: PC)
    requires Inv(s, init) && Runs(s, c, p)
    requires r == s.(pc := s.pc[p := n], lock := r.lock, locks := r.locks)
    requires r.lock == s.lock || (r.lock == Some(c) && s.lock == None) || (r.lock == None && s.lock == Some(c))
    requires OthersKept(s.locks, r.locks, c) && Moves(s.tab[p], s.tab[p], s.pc[p], n, p, c, r.lock, r.locks)
    ensures Inv(r, init)
  {
    assert s.tab[p := s.tab[p]] == s.tab;
    MoveKeepsInv(s, r, init, c, p, s.tab[p], n);
  }

  /** The thread proceeds inside its critical section, to a point whose meaning for parents and
      children is shown separately. */
  lemma ProceedKeepsInv(s: State, r: State, init: nat, c: nat, p: nat, n: PC)
    requires Inv(s, init) && Runs(s, c, p) && r == s.(pc := s.pc[p := n])
    requires s.lock == Some(c) && Fits(s.tab[p], n, Some(c)) && !n.Both? && !n.Enter?
    requires ChildOf(n) == ChildOf(s.pc[p]) && HasAdopted(n) == HasAdopted(s.pc[p])
    requires SleepsFor(n, Table) ==> n.chan == ProcChan(p)
    requires ParentInv(r.tab, r.pc, init) && ZombieInv(r.tab, r.pc) && s.tab[p].state != EMBRYO
    ensures Inv(r, init)
  {
    HoldMove(s.lock, s.lock, s.pc, s.at, p, n);
    SpinMove(s.locks, s.locks, s.pc, s.at, p, n, c);
    assert s.tab[p := s.tab[p]] == s.tab && s.at[p := s.at[p]] == s.at;
    FitPark(s.tab, s.pc, s.at, p, s.tab[p], n, s.at[p]);
    BuildMove(s.tab, s.pc, s.builder, p, s.tab[p], n);
  }

  /** What the running thread's slot looks like. */
  lemma Running(s: State, init: nat, c: nat, p: nat)
    requires Inv(s, init) && Runs(s, c, p)
    ensures p < |s.tab| && s.at[p] == Some(c) && Fits(s.tab[p], s.pc[p], Some(c))
    ensures s.pc[p].Holds() ==> s.lock == Some(c)
    ensures s.tab[p].state != UNUSED && s.tab[p].state != EMBRYO && s.tab[p].kstack
    ensures forall q :: 0 <= q < |s.at| && q != p ==> s.at[q] != Some(c)
  {
  }

  // ---------------------------------------------------------------- single steps of one thread

  lemma AcquireMoves(proc: Proc, pc: PC, p: nat, c: nat, locks: map<nat, nat>, op: Op)
    requires Fits(proc, pc, Some(c)) && MayAcquire(pc, op, locks, c) && !op.Exit?
    ensures Moves(proc, proc, pc, Locked(op), p, c, Some(c), locks)
  {
  }

  lemma AcquireKeepsInv(s: State, r: State, init: nat, c: nat, p: nat, op: Op)
    requires Inv(s, init) && Runs(s, c, p) && s.lock == None && MayAcquire(s.pc[p], op, s.locks, c) && !op.Exit?
    requires r == Goto(s, p, Locked(op)).(lock := Some(c))
    ensures Inv(r, init)
  {
    Running(s, init, c, p);
    AcquireMoves(s.tab[p], s.pc[p], p, c, s.locks, op);
    JumpKeepsInv(s, r, init, c, p, Locked(op));
  }

  lemma ReturnMoves(proc: Proc, pc: PC, p: nat, c: nat, locks: map<nat, nat>)
    requires Fits(proc, pc, Some(c)) && pc.Locked? && !pc.op.Start?
    ensures Moves(proc, proc, pc, Unlocking(Under(pc)), p, c, Some(c), locks)
  {
  }

  /** The thread is done under the lock, and will go on where it took it. */
  lemma ReturnKeepsInv(s: State, r: State, init: nat, c: nat, p: nat)
    requires Inv(s, init) && Runs(s, c, p) && s.pc[p].Locked? && !s.pc[p].op.Start? && r == Goto(s, p, Unlocking(Under(s.pc[p])))
    ensures Inv(r, init)
  {
    Running(s, init, c, p);
    ReturnMoves(s.tab[p], s.pc[p], p, c, s.locks);
    JumpKeepsInv(s, r, init, c, p, Unlocking(Under(s.pc[p])));
  }

  lemma AcquireStartMoves(proc: Proc, pc: PC, p: nat, c: nat, locks: map<nat, nat>)
    requires Fits(proc, pc, Some(c)) && pc.Adopted?
    ensures Moves(proc, proc, pc, Locked(Start(pc.child)), p, c, Some(c), locks)
  {
  }

  lemma AcquireStartKeepsInv(s: State, r: State, init: nat, c: nat, p: nat)
    requires Inv(s, init) && Runs(s, c, p) && s.pc[p].Adopted? && s.lock == None
    requires r == Goto(s, p, Locked(Start(s.pc[p].child))).(lock := Some(c))
    ensures Inv(r, init)
  {
    Running(s, init, c, p);
    AcquireStartMoves(s.tab[p], s.pc[p], p, c, s.locks);
    JumpKeepsInv(s, r, init, c, p, Locked(Start(s.pc[p].child)));
  }

  lemma UnlockMoves(proc: Proc, pc: PC, p: nat, c: nat, locks: map<nat, nat>)
    requires Fits(proc, pc, Some(c)) && pc.Unlocking?
    ensures Moves(proc, proc, pc, After(pc.next), p, c, None, locks)
  {
  }

  lemma UnlockKeepsInv(s: State, r: State, init: nat, c: nat, p: nat)
    requires Inv(s, init) && Runs(s, c, p) && s.pc[p].Unlocking?
    requires r == Goto(s, p, After(s.pc[p].next)).(lock := None)
    ensures Inv(r, init)
  {
    Running(s, init, c, p);
    UnlockMoves(s.tab[p], s.pc[p], p, c, s.locks);
    JumpKeepsInv(s, r, init, c, p, After(s.pc[p].next));
  }

  lemma RelockMoves(proc: Proc, pc: PC, p: nat, c: nat, lock: Option<nat>, locks: map<nat, nat>)
    requires Fits(proc, pc, Some(c)) && pc.Relock?
    ensures Moves(proc, proc, pc, Code, p, c, lock, locks)
  {
  }

  lemma RelockKeepsInv(s: State, r: State, init: nat, c: nat, p: nat)
    requires Inv(s, init) && Runs(s, c, p) && s.pc[p].Relock? && s.pc[p].id !in s.locks
    requires r == Goto(s, p, Code).(locks := s.locks[s.pc[p].id := c])
    ensures Inv(r, init)
  {
    Running(s, init, c, p);
    RelockMoves(s.tab[p], s.pc[p], p, c, r.lock, r.locks);
    JumpKeepsInv(s, r, init, c, p, Code);
  }

  lemma SleepMoves(proc: Proc, pc: PC, n: PC, p: nat, c: nat, lock: Option<nat>, locks: map<nat, nat>)
    requires Fits(proc, pc, Some(c)) && (pc == Code || pc.Enter?) && (n.Enter? || n.Both?) && n.id in locks && locks[n.id] == c
    requires n.Both? ==> lock == Some(c)
    ensures Moves(proc, proc, pc, n, p, c, lock, locks)
  {
  }

  lemma SleepCallKeepsInv(s: State, r: State, init: nat, c: nat, p: nat, chan: Chan, id: nat)
    requires Inv(s, init) && Runs(s, c, p) && s.pc[p] == Code && id in s.locks && s.locks[id] == c
    requires r == Goto(s, p, Enter(chan, id))
    ensures Inv(r, init)
  {
    Running(s, init, c, p);
    SleepMoves(s.tab[p], s.pc[p], Enter(chan, id), p, c, s.lock, s.locks);
    JumpKeepsInv(s, r, init, c, p, Enter(chan, id));
  }

  lemma SleepAcquireKeepsInv(s: State, r: State, init: nat, c: nat, p: nat)
    requires Inv(s, init) && Runs(s, c, p) && s.pc[p].Enter? && s.lock == None
    requires r == Goto(s, p, Both(s.pc[p].chan, s.pc[p].id)).(lock := Some(c))
    ensures Inv(r, init)
  {
    Running(s, init, c, p);
    SleepMoves(s.tab[p], s.pc[p], Both(s.pc[p].chan, s.pc[p].id), p, c, r.lock, s.locks);
    JumpKeepsInv(s, r, init, c, p, Both(s.pc[p].chan, s.pc[p].id));
  }

  lemma SleepDropMoves(proc: Proc, pc: PC, p: nat, c: nat, locks: map<nat, nat>)
    requires Fits(proc, pc, Some(c)) && pc.Both?
    ensures Moves(proc, proc, pc, Ready(pc.chan, Other(pc.id)), p, c, Some(c), locks)
  {
  }

  lemma SleepDropKeepsInv(s: State, r: State, init: nat, c: nat, p: nat)
    requires Inv(s, init) && Runs(s, c, p) && s.pc[p].Both?
    requires r == Goto(s, p, Ready(s.pc[p].chan, Other(s.pc[p].id))).(locks := s.locks - {s.pc[p].id})
    ensures Inv(r, init)
  {
    Running(s, init, c, p);
    assert s.locks[s.pc[p].id] == c;
    SleepDropMoves(s.tab[p], s.pc[p], p, c, r.locks);
    JumpKeepsInv(s, r, init, c, p, Ready(s.pc[p].chan, Other(s.pc[p].id)));
  }

  lemma DozeMoves(proc: Proc, pc: PC, p: nat, c: nat, locks: map<nat, nat>)
    requires Fits(proc, pc, Some(c)) && pc.Ready? && (pc.lk.Table? ==> pc.chan == ProcChan(p))
    ensures Moves(proc, proc.(chan := Some(pc.chan), state := SLEEPING), pc, Dozing(pc.chan, pc.lk), p, c, Some(c), locks)
  {
  }

  lemma DozeKeepsInv(s: State, r: State, init: nat, c: nat, p: nat)
    requires Inv(s, init) && Runs(s, c, p) && s.pc[p].Ready?
    requires r == Goto(s, p, Dozing(s.pc[p].chan, s.pc[p].lk)).(
      tab := s.tab[p := s.tab[p].(chan := Some(s.pc[p].chan), state := SLEEPING)])
    ensures Inv(r, init)
  {
    Running(s, init, c, p);
    DozeMoves(s.tab[p], s.pc[p], p, c, s.locks);
    MoveKeepsInv(s, r, init, c, p, s.tab[p].(chan := Some(s.pc[p].chan), state := SLEEPING),
                 Dozing(s.pc[p].chan, s.pc[p].lk));
  }

  function Tidied(pc: PC): PC
    requires pc.Resumed?
  {
    if pc.lk.Table? then Locked(Wait) else Unlocking(ToRelock(pc.lk.id))
  }

  lemma TidyMoves(proc: Proc, pc: PC, p: nat, c: nat, locks: map<nat, nat>)
    requires Fits(proc, pc, Some(c)) && pc.Resumed?
    ensures Moves(proc, proc.(chan := None), pc, Tidied(pc), p, c, Some(c), locks)
  {
  }

  lemma TidyKeepsInv(s: State, r: State, init: nat, c: nat, p: nat)
    requires Inv(s, init) && Runs(s, c, p) && s.pc[p].Resumed?
    requires r == Goto(s, p, Tidied(s.pc[p])).(tab := s.tab[p := s.tab[p].(chan := None)])
    ensures Inv(r, init)
  {
    Running(s, init, c, p);
    TidyMoves(s.tab[p], s.pc[p], p, c, s.locks);
    MoveKeepsInv(s, r, init, c, p, s.tab[p].(chan := None), Tidied(s.pc[p]));
  }

  lemma YieldMoves(proc: Proc, pc: PC, p: nat, c: nat, locks: map<nat, nat>)
    requires Fits(proc, pc, Some(c)) && pc.Locked? && pc.op.Yield?
    ensures Moves(proc, proc.(state := RUNNABLE), pc, Yielding(pc.op.back), p, c, Some(c), locks)
  {
  }

  lemma YieldKeepsInv(s: State, r: State, init: nat, c: nat, p: nat)
    requires Inv(s, init) && Runs(s, c, p) && s.pc[p].Locked? && s.pc[p].op.Yield?
    requires r == Goto(s, p, Yielding(s.pc[p].op.back)).(tab := s.tab[p := s.tab[p].(state := RUNNABLE)])
    ensures Inv(r, init)
  {
    Running(s, init, c, p);
    YieldMoves(s.tab[p], s.pc[p], p, c, s.locks);
    MoveKeepsInv(s, r, init, c, p, s.tab[p].(state := RUNNABLE), Yielding(s.pc[p].op.back));
  }

  // ---------------------------------------------------------------- locks and switches

  lemma TakeLockKeepsInv(s: State, r: State, init: nat, c: nat, id: nat)
    requires Inv(s, init) && id !in s.locks && r == s.(locks := s.locks[id := c])
    ensures Inv(r, init)
  {
  }

  lemma DropLockKeepsInv(s: State, r: State, init: nat, c: nat, id: nat)
    requires Inv(s, init) && c < |s.on| && Interruptible(s, c) && id in s.locks && s.locks[id] == c
    requires r == s.(locks := s.locks - {id})
    ensures Inv(r, init)
  {
    forall p | 0 <= p < |s.pc| && (s.pc[p].Enter? || s.pc[p].Both?)
      ensures s.pc[p].id in r.locks && s.at[p] == Some(r.locks[s.pc[p].id])
    {
      assert s.at[p] == Some(s.locks[s.pc[p].id]);
    }
  }

  lemma SchedLockKeepsInv(s: State, r: State, init: nat, c: nat)
    requires Inv(s, init) && InScheduler(s, c)
    requires (s.lock == None && r == s.(lock := Some(c))) || (s.lock == Some(c) && r == s.(lock := None))
    ensures Inv(r, init)
  {
  }

  lemma OnOff(on: seq<Option<nat>>, at: seq<Option<nat>>, c: nat, p: nat)
    requires OnInv(on, at) && c < |on| && p < |at| && on[c] == Some(p)
    ensures OnInv(on[c := None], at[p := None])
  {
  }

  lemma OnTo(on: seq<Option<nat>>, at: seq<Option<nat>>, c: nat, p: nat)
    requires OnInv(on, at) && c < |on| && p < |at| && on[c] == None && at[p] == None
    ensures OnInv(on[c := Some(p)], at[p := Some(c)])
  {
  }

  lemma SpinPark(locks: map<nat, nat>, pc: seq<PC>, at: seq<Option<nat>>, p: nat, n: PC, a: Option<nat>)
    requires SpinInv(locks, pc, at) && p < |pc| && !n.Enter? && !n.Both?
    ensures SpinInv(locks, pc[p := n], at[p := a])
  {
  }

  lemma HoldPark(lock: Option<nat>, pc: seq<PC>, at: seq<Option<nat>>, p: nat, n: PC, a: Option<nat>)
    requires HoldInv(lock, pc, at) && p < |pc| && (n.Holds() ==> lock.Some? && a == lock)
    ensures HoldInv(lock, pc[p := n], at[p := a])
  {
  }

  lemma FitPark(tab: seq<Proc>, pc: seq<PC>, at: seq<Option<nat>>, p: nat, new_: Proc, n: PC, a: Option<nat>)
    requires FitInv(tab, pc, at) && p < |pc| && Fits(new_, n, a)
    ensures FitInv(tab[p := new_], pc[p := n], at[p := a])
  {
  }

  /** The moves that change the point of thread p but not what the other families see. */
  lemma ParentJump(tab: seq<Proc>, pc: seq<PC>, init: nat, p: nat, new_: Proc, n: PC)
    requires ParentInv(tab, pc, init) && p < |pc| && new_.parent == tab[p].parent
    requires (Alive(new_.state) <==> Alive(tab[p].state)) && (new_.state == ZOMBIE <==> tab[p].state == ZOMBIE)
    requires (new_.state == UNUSED <==> tab[p].state == UNUSED)
    requires !n.ChildrenPassed? && !n.ParentWoken? && n != Locked(Exit)
    ensures ParentInv(tab[p := new_], pc[p := n], init)
  {
    var t, m := tab[p := new_], pc[p := n];
    forall q | 0 <= q < |tab| ensures ParentOk(t, m, init, q) {
      assert ParentOk(tab, pc, init, q);
    }
  }

  lemma ZombieJump(tab: seq<Proc>, pc: seq<PC>, p: nat, new_: Proc, n: PC)
    requires ZombieInv(tab, pc) && p < |pc| && new_.parent == tab[p].parent
    requires (Leaving(new_, n) ==> Leaving(tab[p], pc[p])) && (Awaits(new_, n) ==> Awaits(tab[p], pc[p]))
    ensures ZombieInv(tab[p := new_], pc[p := n])
  {
    var t, m := tab[p := new_], pc[p := n];
    forall q | 0 <= q < |tab| ensures NotAwaited(t, m, q) {
      assert NotAwaited(tab, pc, q);
    }
  }

  /** Everything about one slot that a switch of its thread to or from a CPU must respect. */
  predicate Parks(old_: Proc, new_: Proc, pc: PC, n: PC, p: nat, a: Option<nat>, lock: Option<nat>) {
    && Fits(new_, n, a) && !n.Enter? && !n.Both? && (n.Holds() ==> lock.Some? && a == lock)
    && old_.state != EMBRYO && new_.state != EMBRYO && ChildOf(n) == ChildOf(pc) && HasAdopted(n) == HasAdopted(pc)
    && new_.parent == old_.parent && new_.pid == old_.pid
    && (Alive(new_.state) <==> Alive(old_.state)) && (new_.state == ZOMBIE <==> old_.state == ZOMBIE)
    && (new_.state == UNUSED <==> old_.state == UNUSED)
    && !n.ChildrenPassed? && !n.ParentWoken? && n != Locked(Exit)
    && (Leaving(new_, n) ==> Leaving(old_, pc)) && (Awaits(new_, n) ==> Awaits(old_, pc))
    && (SleepsFor(n, Table) ==> SleepsFor(pc, Table) && n.chan == pc.chan)
  }

  lemma ParkKeepsInv(s: State, r: State, init: nat, p: nat, new_: Proc, n: PC, a: Option<nat>)
    requires Inv(s, init) && p < |s.pc| && OnInv(r.on, r.at) && |r.on| == |s.on|
    requires r == s.(tab := s.tab[p := new_], pc := s.pc[p := n], on := r.on, at := s.at[p := a])
    requires Parks(s.tab[p], new_, s.pc[p], n, p, a, s.lock)
    ensures Inv(r, init)
  {
    FitPark(s.tab, s.pc, s.at, p, new_, n, a);
    SpinPark(s.locks, s.pc, s.at, p, n, a);
    HoldPark(s.lock, s.pc, s.at, p, n, a);
    WaitMove(s.pc, p, n);
    BuildMove(s.tab, s.pc, s.builder, p, new_, n);
    ParentJump(s.tab, s.pc, init, p, new_, n);
    ZombieJump(s.tab, s.pc, p, new_, n);
    assert PidOk(s.tab[p], p, s.nextpid, s.log);
    PidMove(s.tab, s.nextpid, s.log, p, new_);
  }

  lemma SwtchParks(proc: Proc, pc: PC, p: nat, c: nat, lock: Option<nat>)
    requires Fits(proc, pc, Some(c)) && (pc.Dozing? || pc.Yielding? || pc.Dying?)
    ensures Parks(proc, proc, pc, Parked(pc), p, None, lock)
  {
  }

  lemma SwtchKeepsInv(s: State, r: State, init: nat, c: nat, p: nat)
    requires Inv(s, init) && Runs(s, c, p) && (s.pc[p].Dozing? || s.pc[p].Yielding? || s.pc[p].Dying?)
    requires r == s.(pc := s.pc[p := Parked(s.pc[p])], on := s.on[c := None], at := s.at[p := None])
    ensures Inv(r, init)
  {
    Running(s, init, c, p);
    OnOff(s.on, s.at, c, p);
    SwtchParks(s.tab[p], s.pc[p], p, c, s.lock);
    assert s.tab[p := s.tab[p]] == s.tab;
    ParkKeepsInv(s, r, init, p, s.tab[p], Parked(s.pc[p]), None);
  }

  lemma DispatchParks(proc: Proc, pc: PC, p: nat, c: nat, at: Option<nat>)
    requires Fits(proc, pc, at) && at.None? && proc.state == RUNNABLE
    ensures Parks(proc, proc.(state := RUNNING), pc, Continued(pc), p, Some(c), Some(c))
  {
  }

  /** A runnable process is on no CPU. */
  lemma RunnableParked(s: State, init: nat, c: nat, p: nat)
    requires Inv(s, init) && InScheduler(s, c) && s.lock == Some(c) && p < |s.tab| && s.tab[p].state == RUNNABLE
    ensures Fits(s.tab[p], s.pc[p], s.at[p]) && s.at[p] == None
  {
  }

  lemma DispatchKeepsInv(s: State, r: State, init: nat, c: nat, p: nat)
    requires Inv(s, init) && InScheduler(s, c) && s.lock == Some(c) && p < |s.tab| && s.tab[p].state == RUNNABLE
    requires r == SwitchTo(s, c, p)
    ensures Inv(r, init)
  {
    RunnableParked(s, init, c, p);
    OnTo(s.on, s.at, c, p);
    DispatchParks(s.tab[p], s.pc[p], p, c, s.at[p]);
    ParkKeepsInv(s, r, init, p, s.tab[p].(state := RUNNING), Continued(s.pc[p]), Some(c));
  }

  // ---------------------------------------------------------------- wakeup and kill

  /** wakeup1 keeps the invariant when nobody is between setting SLEEPING and switching away. */
  lemma WakeKeepsInv(s: State, r: State, init: nat, chan: Chan)
    requires Inv(s, init) && r == s.(tab := WakeAll(s.tab, chan))
    requires forall q :: 0 <= q < |s.pc| ==> !s.pc[q].Dozing?
    ensures Inv(r, init)
  {
    WakeFit(s.tab, s.pc, s.at, chan);
    WakeBuild(s.tab, s.pc, s.builder, chan);
    WakeParents(s.tab, s.pc, init, chan);
    WakeZombie(s.tab, s.pc, chan);
    WakePid(s.tab, s.nextpid, s.log, chan);
  }

  lemma WakeFit(tab: seq<Proc>, pc: seq<PC>, at: seq<Option<nat>>, chan: Chan)
    requires FitInv(tab, pc, at) && forall q :: 0 <= q < |pc| ==> !pc[q].Dozing?
    ensures FitInv(WakeAll(tab, chan), pc, at)
  {
    forall p | 0 <= p < |pc| ensures Fits(WakeAll(tab, chan)[p], pc[p], at[p]) {
      assert Fits(tab[p], pc[p], at[p]);
    }
  }

  lemma WakeBuild(tab: seq<Proc>, pc: seq<PC>, builder: seq<nat>, chan: Chan)
    requires BuildInv(tab, pc, builder)
    ensures BuildInv(WakeAll(tab, chan), pc, builder)
  {
  }

  lemma WakeParents(tab: seq<Proc>, pc: seq<PC>, init: nat, chan: Chan)
    requires ParentInv(tab, pc, init)
    ensures ParentInv(WakeAll(tab, chan), pc, init)
  {
    var t := WakeAll(tab, chan);
    forall q | 0 <= q < |tab| ensures ParentOk(t, pc, init, q) {
      assert ParentOk(tab, pc, init, q);
    }
  }

  lemma WakeZombie(tab: seq<Proc>, pc: seq<PC>, chan: Chan)
    requires ZombieInv(tab, pc)
    ensures ZombieInv(WakeAll(tab, chan), pc)
  {
    var t := WakeAll(tab, chan);
    forall q | 0 <= q < |tab| ensures NotAwaited(t, pc, q) {
      assert NotAwaited(tab, pc, q);
    }
  }

  lemma WakePid(tab: seq<Proc>, nextpid: nat, log: Log, chan: Chan)
    requires PidInv(tab, nextpid, log)
    ensures PidInv(WakeAll(tab, chan), nextpid, log)
  {
    forall p | 0 <= p < |tab| ensures PidOk(WakeAll(tab, chan)[p], p, nextpid, log) {
      assert PidOk(tab[p], p, nextpid, log);
    }
    forall x | log.exits[x] > log.reaps[x] ensures IsZombie(WakeAll(tab, chan), log, x) {
      assert IsZombie(tab, log, x);
    }
  }

  lemma IrqWakeupKeepsInv(s: State, r: State, init: nat, chan: Chan)
    requires Inv(s, init) && s.lock == None && r == s.(tab := WakeAll(s.tab, chan))
    ensures Inv(r, init)
  {
    WakeKeepsInv(s, r, init, chan);
  }

  /** A running thread is not affected by a wakeup. */
  lemma NobodyDozes(s: State, init: nat, c: nat, p: nat)
    requires Inv(s, init) && Runs(s, c, p) && s.pc[p].Holds() && !s.pc[p].Dozing?
    ensures forall q :: 0 <= q < |s.pc| ==> !s.pc[q].Dozing?
  {
    Running(s, init, c, p);
    Exclusive(s, init, c, p);
  }

  lemma DoWakeKeepsInv(s: State, r: State, init: nat, c: nat, p: nat)
    requires Inv(s, init) && Runs(s, c, p) && s.pc[p].Locked? && s.pc[p].op.Wake?
    requires r == Goto(s, p, Unlocking(s.pc[p].op.back)).(tab := WakeAll(s.tab, s.pc[p].op.chan))
    ensures Inv(r, init)
  {
    var t := s.(tab := r.tab);
    NobodyDozes(s, init, c, p);
    WakeKeepsInv(s, t, init, s.pc[p].op.chan);
    ReturnKeepsInv(t, r, init, c, p);
  }

  lemma KillKeepsInv(s: State, r: State, init: nat, c: nat, p: nat, k: nat)
    requires Inv(s, init) && Runs(s, c, p) && s.pc[p].Locked? && s.pc[p].op.Kill? && k < |s.tab|
    requires r == Goto(s, p, Unlocking(ToCode)).(tab := s.tab[k := Killed(s.tab[k])])
    ensures Inv(r, init)
  {
    var t := s.(tab := r.tab);
    NobodyDozes(s, init, c, p);
    MarkKilledKeepsInv(s, t, init, k);
    KillReturns(t, r, init, c, p);
  }

  lemma KillReturns(s: State, r: State, init: nat, c: nat, p: nat)
    requires Inv(s, init) && Runs(s, c, p) && s.pc[p].Locked? && s.pc[p].op.Kill? && r == Goto(s, p, Unlocking(ToCode))
    ensures Inv(r, init)
  {
    ReturnKeepsInv(s, r, init, c, p);
  }

  lemma MarkKilledKeepsInv(s: State, r: State, init: nat, k: nat)
    requires Inv(s, init) && k < |s.tab| && !s.pc[k].Dozing? && r == s.(tab := s.tab[k := Killed(s.tab[k])])
    ensures Inv(r, init)
  {
    assert Fits(s.tab[k], s.pc[k], s.at[k]);
    assert s.pc[k := s.pc[k]] == s.pc && s.at[k := s.at[k]] == s.at;
    FitPark(s.tab, s.pc, s.at, k, r.tab[k], s.pc[k], s.at[k]);
    KillBuild(s.tab, s.pc, s.builder, k);
    KillParents(s.tab, s.pc, init, k);
    ZombieJump(s.tab, s.pc, k, r.tab[k], s.pc[k]);
    PidMove(s.tab, s.nextpid, s.log, k, r.tab[k]);
  }

  lemma KillBuild(tab: seq<Proc>, pc: seq<PC>, builder: seq<nat>, k: nat)
    requires BuildInv(tab, pc, builder) && k < |tab|
    ensures BuildInv(tab[k := Killed(tab[k])], pc, builder)
  {
  }

  lemma KillParents(tab: seq<Proc>, pc: seq<PC>, init: nat, k: nat)
    requires ParentInv(tab, pc, init) && k < |tab|
    ensures ParentInv(tab[k := Killed(tab[k])], pc, init)
  {
    var t := tab[k := Killed(tab[k])];
    forall q | 0 <= q < |tab| ensures ParentOk(t, pc, init, q) {
      assert ParentOk(tab, pc, init, q);
    }
  }

  // ---------------------------------------------------------------- fork

  /** Thread p moves to point n while slot k becomes new_ at point nk. */
  lemma FitTwo(tab: seq<Proc>, pc: seq<PC>, at: seq<Option<nat>>, k: nat, new_: Proc, nk: PC, p: nat, n: PC)
    requires FitInv(tab, pc, at) && k < |pc| && p < |pc| && p != k && Fits(new_, nk, at[k]) && Fits(tab[p], n, at[p])
    ensures FitInv(tab[k := new_], pc[k := nk][p := n], at)
  {
  }

  lemma ParentTwo(tab: seq<Proc>, pc: seq<PC>, init: nat, k: nat, new_: Proc, nk: PC, p: nat, n: PC)
    requires ParentInv(tab, pc, init) && k < |pc| && p < |pc| && p != k && k != init
    requires !nk.ChildrenPassed? && !n.ChildrenPassed? && !n.ParentWoken? && n != Locked(Exit)
    requires (Alive(tab[k].state) ==> Alive(new_.state)) && ParentOk(tab[k := new_], pc[k := nk][p := n], init, k)
    ensures ParentInv(tab[k := new_], pc[k := nk][p := n], init)
  {
    var t, m := tab[k := new_], pc[k := nk][p := n];
    forall q | 0 <= q < |tab| ensures ParentOk(t, m, init, q) {
      assert ParentOk(tab, pc, init, q);
    }
  }

  lemma ZombieTwo(tab: seq<Proc>, pc: seq<PC>, k: nat, new_: Proc, nk: PC, p: nat, n: PC)
    requires ZombieInv(tab, pc) && k < |pc| && p < |pc| && p != k && !Leaving(new_, nk) && !Awaits(new_, nk)
    requires (Leaving(tab[p], n) ==> Leaving(tab[p], pc[p])) && !Awaits(tab[p], n)
    ensures ZombieInv(tab[k := new_], pc[k := nk][p := n])
  {
    var t, m := tab[k := new_], pc[k := nk][p := n];
    forall q | 0 <= q < |tab| ensures NotAwaited(t, m, q) {
      assert NotAwaited(tab, pc, q);
    }
  }

  /** Everything about a thread moving from pc to n, and about slot k moving along, off every CPU. */
  predicate Pairs(old_: Proc, new_: Proc, nk: PC, proc: Proc, pc: PC, n: PC, c: nat, lock: Option<nat>) {
    && Fits(new_, nk, None) && !nk.Holds() && !nk.Enter? && !nk.Both? && !SleepsFor(nk, Table) && !nk.ChildrenPassed?
    && (Alive(old_.state) ==> Alive(new_.state)) && !Leaving(new_, nk) && !Awaits(new_, nk)
    && Fits(proc, n, Some(c)) && (n.Holds() ==> lock == Some(c)) && !n.Enter? && !n.Both? && !SleepsFor(n, Table)
    && !n.ChildrenPassed? && !n.ParentWoken? && n != Locked(Exit)
    && (Leaving(proc, n) ==> Leaving(proc, pc)) && !Awaits(proc, n)
  }

  lemma PairKeepsInv(s: State, r: State, init: nat, c: nat, p: nat, k: nat, new_: Proc, nk: PC, n: PC)
    requires Inv(s, init) && Runs(s, c, p) && k < |s.tab| && k != p && k != init && s.at[k] == None
    requires r == s.(tab := s.tab[k := new_], pc := s.pc[k := nk][p := n], builder := r.builder, nextpid := r.nextpid, log := r.log)
    requires Pairs(s.tab[k], new_, nk, s.tab[p], s.pc[p], n, c, s.lock)
    requires BuildInv(r.tab, r.pc, r.builder) && PidInv(r.tab, r.nextpid, r.log) && ParentOk(r.tab, r.pc, init, k)
    ensures Inv(r, init)
  {
    Running(s, init, c, p);
    PairHolds(s, init, c, p, k, nk, n);
    FitTwo(s.tab, s.pc, s.at, k, new_, nk, p, n);
    ParentTwo(s.tab, s.pc, init, k, new_, nk, p, n);
    ZombieTwo(s.tab, s.pc, k, new_, nk, p, n);
  }

  lemma PairHolds(s: State, init: nat, c: nat, p: nat, k: nat, nk: PC, n: PC)
    requires Inv(s, init) && Runs(s, c, p) && k < |s.tab| && k != p && s.at[k] == None
    requires !nk.Holds() && !nk.Enter? && !nk.Both? && !SleepsFor(nk, Table)
    requires (n.Holds() ==> s.lock == Some(c)) && !n.Enter? && !n.Both? && !SleepsFor(n, Table)
    ensures var m := s.pc[k := nk][p := n]; HoldInv(s.lock, m, s.at) && SpinInv(s.locks, m, s.at) && WaitInv(m)
  {
    var m := s.pc[k := nk];
    HoldMove(s.lock, s.lock, s.pc, s.at, k, nk);
    HoldMove(s.lock, s.lock, m, s.at, p, n);
    WaitMove(s.pc, k, nk);
    WaitMove(m, p, n);
    SpinPark(s.locks, s.pc, s.at, k, nk, s.at[k]);
    SpinPark(s.locks, m, s.at, p, n, s.at[p]);
    assert s.at[k := s.at[k]] == s.at && s.at[p := s.at[p]] == s.at;
  }

  lemma AllocPairs(old_: Proc, new_: Proc, proc: Proc, pc: PC, k: nat, c: nat)
    requires Fits(proc, pc, Some(c)) && pc.Locked? && old_.state == UNUSED && new_.state == EMBRYO
    ensures Pairs(old_, new_, Off, proc, pc, Unlocking(ToBuild(k)), c, Some(c))
  {
  }

  /** An unused slot is on no CPU and is nobody's child. */
  lemma UnusedSlot(s: State, init: nat, k: nat)
    requires Inv(s, init) && k < |s.tab| && s.tab[k].state == UNUSED
    ensures s.pc[k] == Off && s.at[k] == None && k != init && s.tab[k].parent == None
  {
    assert Fits(s.tab[k], s.pc[k], s.at[k]) && ParentOk(s.tab, s.pc, init, k);
  }

  lemma AllocKeepsInv(s: State, r: State, init: nat, c: nat, p: nat, k: nat)
    requires Inv(s, init) && Runs(s, c, p) && s.pc[p] == Locked(Alloc) && k < |s.tab| && s.tab[k].state == UNUSED
    requires r == AllocSlot(s, p, k)
    ensures Inv(r, init)
  {
    Running(s, init, c, p);
    UnusedSlot(s, init, k);
    AllocBuild(s.tab, s.pc, s.builder, p, k, s.nextpid);
    AllocPid(s.tab, s.nextpid, s.log, k);
    AllocPairs(s.tab[k], r.tab[k], s.tab[p], s.pc[p], k, c);
    assert s.pc[k := Off] == s.pc;
    PairKeepsInv(s, r, init, c, p, k, r.tab[k], Off, Unlocking(ToBuild(k)));
  }

  lemma AllocBuild(tab: seq<Proc>, pc: seq<PC>, builder: seq<nat>, p: nat, k: nat, pid: nat)
    requires BuildInv(tab, pc, builder) && p < |pc| && k < |tab| && p != k && ChildOf(pc[p]) == None
    requires tab[k].state == UNUSED && tab[k].parent == None && pc[k] == Off
    ensures BuildInv(tab[k := tab[k].(state := EMBRYO, pid := pid)], pc[p := Unlocking(ToBuild(k))], builder[k := p])
  {
  }

  lemma AllocPid(tab: seq<Proc>, nextpid: nat, log: Log, k: nat)
    requires PidInv(tab, nextpid, log) && k < |tab| && tab[k].state == UNUSED
    ensures PidInv(tab[k := tab[k].(state := EMBRYO, pid := nextpid)], nextpid + 1, log.(slotOf := log.slotOf[nextpid := k]))
  {
    var t, l := tab[k := tab[k].(state := EMBRYO, pid := nextpid)], log.(slotOf := log.slotOf[nextpid := k]);
    forall p | 0 <= p < |tab| ensures PidOk(t[p], p, nextpid + 1, l) {
      assert PidOk(tab[p], p, nextpid, log);
    }
    forall x | l.exits[x] > l.reaps[x] ensures IsZombie(t, l, x) {
      assert IsZombie(tab, log, x);
    }
  }

  /** The thread building slot k, and the slot. */
  lemma Building(s: State, init: nat, p: nat, k: nat)
    requires Inv(s, init) && p < |s.pc| && ChildOf(s.pc[p]) == Some(k)
    ensures k < |s.tab| && s.tab[k].state == EMBRYO && s.builder[k] == p && EmbryoOk(s.tab[k], k, s.pc[p], p)
    ensures s.pc[k] == Off && s.at[k] == None && k != init && k != p
  {
    assert Fits(s.tab[k], s.pc[k], s.at[k]);
  }

  lemma BuildPairs(old_: Proc, new_: Proc, proc: Proc, pc: PC, n: PC, c: nat, lock: Option<nat>)
    requires Fits(proc, pc, Some(c)) && old_.state == EMBRYO && (new_.state == EMBRYO || new_.state == UNUSED)
    requires pc.Build? && (n == Adopted(pc.child) || n == Code)
    ensures Pairs(old_, new_, Off, proc, pc, n, c, lock)
  {
  }

  lemma AdoptKeepsInv(s: State, r: State, init: nat, c: nat, p: nat, k: nat)
    requires Inv(s, init) && Runs(s, c, p) && s.pc[p] == Build(k) && k < |s.tab| && r == AdoptChild(s, p, k)
    ensures Inv(r, init)
  {
    Running(s, init, c, p);
    Building(s, init, p, k);
    AdoptBuild(s.tab, s.pc, s.builder, p, k);
    assert PidOk(s.tab[k], k, s.nextpid, s.log);
    PidMove(s.tab, s.nextpid, s.log, k, r.tab[k]);
    BuildPairs(s.tab[k], r.tab[k], s.tab[p], s.pc[p], Adopted(k), c, s.lock);
    assert s.pc[k := Off] == s.pc;
    PairKeepsInv(s, r, init, c, p, k, r.tab[k], Off, Adopted(k));
  }

  lemma AdoptBuild(tab: seq<Proc>, pc: seq<PC>, builder: seq<nat>, p: nat, k: nat)
    requires BuildInv(tab, pc, builder) && p < |pc| && pc[p] == Build(k) && k < |tab|
    ensures BuildInv(tab[k := tab[k].(parent := Some(p), kstack := true)], pc[p := Adopted(k)], builder)
  {
  }

  lemma GiveUpKeepsInv(s: State, r: State, init: nat, c: nat, p: nat, k: nat)
    requires Inv(s, init) && Runs(s, c, p) && s.pc[p] == Build(k) && k < |s.tab| && r == DropChild(s, p, k)
    ensures Inv(r, init)
  {
    Running(s, init, c, p);
    Building(s, init, p, k);
    GiveUpBuild(s.tab, s.pc, s.builder, p, k);
    PidMove(s.tab, s.nextpid, s.log, k, r.tab[k]);
    BuildPairs(s.tab[k], r.tab[k], s.tab[p], s.pc[p], Code, c, s.lock);
    assert s.pc[k := Off] == s.pc;
    PairKeepsInv(s, r, init, c, p, k, r.tab[k], Off, Code);
  }

  lemma GiveUpBuild(tab: seq<Proc>, pc: seq<PC>, builder: seq<nat>, p: nat, k: nat)
    requires BuildInv(tab, pc, builder) && p < |pc| && pc[p] == Build(k) && k < |tab|
    ensures BuildInv(tab[k := tab[k].(state := UNUSED, kstack := false)], pc[p := Code], builder)
  {
  }

  lemma StartPairs(old_: Proc, proc: Proc, pc: PC, c: nat)
    requires Fits(proc, pc, Some(c)) && pc.Locked? && old_.kstack
    ensures Pairs(old_, old_.(state := RUNNABLE), Fresh, proc, pc, Unlocking(ToCode), c, Some(c))
  {
  }

  lemma StartKeepsInv(s: State, r: State, init: nat, c: nat, p: nat, k: nat)
    requires Inv(s, init) && Runs(s, c, p) && s.pc[p] == Locked(Start(k)) && k < |s.tab|
    requires r == s.(tab := s.tab[k := s.tab[k].(state := RUNNABLE)], pc := s.pc[k := Fresh][p := Unlocking(ToCode)])
    ensures Inv(r, init)
  {
    Running(s, init, c, p);
    Building(s, init, p, k);
    StartBuild(s.tab, s.pc, s.builder, p, k);
    assert PidOk(s.tab[k], k, s.nextpid, s.log);
    PidMove(s.tab, s.nextpid, s.log, k, r.tab[k]);
    StartPairs(s.tab[k], s.tab[p], s.pc[p], c);
    PairKeepsInv(s, r, init, c, p, k, r.tab[k], Fresh, Unlocking(ToCode));
  }

  lemma StartBuild(tab: seq<Proc>, pc: seq<PC>, builder: seq<nat>, p: nat, k: nat)
    requires BuildInv(tab, pc, builder) && p < |pc| && pc[p] == Locked(Start(k)) && k < |tab| && k != p && pc[k] == Off
    ensures BuildInv(tab[k := tab[k].(state := RUNNABLE)], pc[k := Fresh][p := Unlocking(ToCode)], builder)
  {
  }

  // ---------------------------------------------------------------- exit

  /** The points of exit() up to its last look at the table. */
  predicate Exiting(pc: PC) { pc == Locked(Exit) || pc.ParentWoken? || pc.ChildrenPassed? }

  lemma ExitFits(proc: Proc, pc: PC, n: PC, c: nat)
    requires Fits(proc, pc, Some(c)) && (pc == Code || Exiting(pc)) && Exiting(n)
    ensures Fits(proc, n, Some(c)) && !SleepsFor(n, Table) && proc.state == RUNNING
    ensures ChildOf(n) == ChildOf(pc) && HasAdopted(n) == HasAdopted(pc)
  {
  }

  lemma AcquireExitKeepsInv(s: State, r: State, init: nat, c: nat, p: nat)
    requires Inv(s, init) && Runs(s, c, p) && s.pc[p] == Code && s.lock == None && p != init
    requires r == Goto(s, p, Locked(Exit)).(lock := Some(c))
    ensures Inv(r, init)
  {
    Running(s, init, c, p);
    Exclusive(s, init, c, p);
    ExitFits(s.tab[p], s.pc[p], Locked(Exit), c);
    assert s.tab[p := s.tab[p]] == s.tab;
    HoldMove(s.lock, r.lock, s.pc, s.at, p, Locked(Exit));
    SpinMove(s.locks, s.locks, s.pc, s.at, p, Locked(Exit), c);
    BuildMove(s.tab, s.pc, s.builder, p, s.tab[p], Locked(Exit));
    ParentExit(s.tab, s.pc, init, p, Locked(Exit));
    ZombieJump(s.tab, s.pc, p, s.tab[p], Locked(Exit));
  }

  /** Thread p, not init, proceeds through exit(). */
  lemma ParentExit(tab: seq<Proc>, pc: seq<PC>, init: nat, p: nat, n: PC)
    requires ParentInv(tab, pc, init) && p < |pc| && p != init
    requires n.ChildrenPassed? ==> forall q :: 0 <= q < |tab| ==> tab[q].parent != Some(p)
    ensures ParentInv(tab, pc[p := n], init)
  {
    var m := pc[p := n];
    forall q | 0 <= q < |tab| ensures ParentOk(tab, m, init, q) {
      assert ParentOk(tab, pc, init, q);
    }
  }

  /** After wakeup1 on its slot a parent is not waiting any more. */
  lemma ParentAwake(s: State, init: nat, p: nat, chan: Chan)
    requires Inv(s, init) && p < |s.pc| && !s.pc[p].Holds() && chan == ProcChan(p)
    ensures !Awaits(WakeAll(s.tab, chan)[p], s.pc[p])
  {
    assert Fits(s.tab[p], s.pc[p], s.at[p]);
  }

  lemma WakeParentKeepsInv(s: State, r: State, init: nat, c: nat, p: nat)
    requires Inv(s, init) && Runs(s, c, p) && s.pc[p] == Locked(Exit)
    requires r == Goto(s, p, ParentWoken).(tab := WakeParentOf(s.tab, p))
    ensures Inv(r, init)
  {
    var t := s.(tab := r.tab);
    LiveParentOf(s, init, c, p);
    var parent := s.tab[p].parent.value;
    ParentAwake(s, init, parent, ProcChan(parent));
    WakeKeepsInv(s, t, init, ProcChan(parent));
    ParentWokenKeepsInv(t, r, init, c, p);
  }

  /** A process in exit() has a parent, which does not hold ptable.lock. */
  lemma LiveParentOf(s: State, init: nat, c: nat, p: nat)
    requires Inv(s, init) && Runs(s, c, p) && s.pc[p] == Locked(Exit)
    ensures p != init && s.tab[p].parent.Some? && s.tab[p].parent.value < |s.pc| && !s.pc[s.tab[p].parent.value].Holds()
    ensures forall q :: 0 <= q < |s.pc| ==> !s.pc[q].Dozing?
  {
    NobodyDozes(s, init, c, p);
    Running(s, init, c, p);
    Exclusive(s, init, c, p);
    assert ParentOk(s.tab, s.pc, init, p);
  }

  lemma ParentWokenKeepsInv(s: State, r: State, init: nat, c: nat, p: nat)
    requires Inv(s, init) && Runs(s, c, p) && s.pc[p] == Locked(Exit) && r == Goto(s, p, ParentWoken)
    requires s.tab[p].parent.Some? && s.tab[p].parent.value < |s.tab|
    requires !Awaits(s.tab[s.tab[p].parent.value], s.pc[s.tab[p].parent.value])
    ensures Inv(r, init)
  {
    Running(s, init, c, p);
    ExitFits(s.tab[p], s.pc[p], ParentWoken, c);
    ParentExit(s.tab, s.pc, init, p, ParentWoken);
    ZombieWoken(s.tab, s.pc, p);
    ProceedKeepsInv(s, r, init, c, p, ParentWoken);
  }

  lemma ZombieWoken(tab: seq<Proc>, pc: seq<PC>, p: nat)
    requires ZombieInv(tab, pc) && p < |pc| && tab[p].state == RUNNING
    requires tab[p].parent.Some? && tab[p].parent.value < |tab| && !Awaits(tab[tab[p].parent.value], pc[tab[p].parent.value])
    ensures ZombieInv(tab, pc[p := ParentWoken])
  {
    var m := pc[p := ParentWoken];
    forall q | 0 <= q < |tab| ensures NotAwaited(tab, m, q) {
      assert NotAwaited(tab, pc, q);
    }
  }

  lemma NoChildrenLeft(tab: seq<Proc>, p: nat, init: nat)
    requires p != init
    ensures forall q :: 0 <= q < |tab| ==> Abandon(tab, p, init)[q].parent != Some(p)
  {
  }

  lemma PassChildrenKeepsInv(s: State, r: State, init: nat, c: nat, p: nat)
    requires Inv(s, init) && Runs(s, c, p) && s.pc[p] == ParentWoken
    requires r == Goto(s, p, ChildrenPassed).(tab := Abandon(s.tab, p, init))
    ensures Inv(r, init)
  {
    var t := s.(tab := r.tab);
    Running(s, init, c, p);
    Exclusive(s, init, c, p);
    AbandonKeepsInv(s, t, init, p);
    NoChildrenLeft(s.tab, p, init);
    ChildrenPassedKeepsInv(t, r, init, c, p);
  }

  lemma ChildrenPassedKeepsInv(s: State, r: State, init: nat, c: nat, p: nat)
    requires Inv(s, init) && Runs(s, c, p) && s.pc[p] == ParentWoken && r == Goto(s, p, ChildrenPassed)
    requires forall q :: 0 <= q < |s.tab| ==> s.tab[q].parent != Some(p)
    ensures Inv(r, init)
  {
    Running(s, init, c, p);
    ExitFits(s.tab[p], s.pc[p], ChildrenPassed, c);
    NoChildren(s.tab, s.pc, init, p);
    ProceedKeepsInv(s, r, init, c, p, ChildrenPassed);
  }

  lemma NoChildren(tab: seq<Proc>, pc: seq<PC>, init: nat, p: nat)
    requires ParentInv(tab, pc, init) && ZombieInv(tab, pc) && p < |pc| && pc[p] == ParentWoken
    requires forall q :: 0 <= q < |tab| ==> tab[q].parent != Some(p)
    ensures ParentInv(tab, pc[p := ChildrenPassed], init) && ZombieInv(tab, pc[p := ChildrenPassed])
  {
    ParentExit(tab, pc, init, p, ChildrenPassed);
    ZombieJump(tab, pc, p, tab[p], ChildrenPassed);
    assert tab[p := tab[p]] == tab;
  }

  lemma AbandonKeepsInv(s: State, r: State, init: nat, p: nat)
    requires Inv(s, init) && p < |s.pc| && s.pc[p] == ParentWoken && NobodyElse(s.pc, p)
    requires r == s.(tab := Abandon(s.tab, p, init))
    ensures Inv(r, init)
  {
    var g := GiveAll(s.tab, p, init);
    GiveFit(s.tab, s.pc, s.at, p, init);
    GiveBuild(s.tab, s.pc, s.builder, p, init);
    GiveParents(s.tab, s.pc, p, init);
    GivePid(s.tab, s.nextpid, s.log, p, init);
    if exists i :: 0 <= i < |s.tab| && ZombieChild(s.tab[i], p) {
      WakeFit(g, s.pc, s.at, ProcChan(init));
      WakeBuild(g, s.pc, s.builder, ProcChan(init));
      WakeParents(g, s.pc, init, ProcChan(init));
      WakePid(g, s.nextpid, s.log, ProcChan(init));
    }
    AbandonZombie(s.tab, s.pc, s.at, init, p);
  }

  lemma GiveFit(tab: seq<Proc>, pc: seq<PC>, at: seq<Option<nat>>, slot: nat, init: nat)
    requires FitInv(tab, pc, at)
    ensures FitInv(GiveAll(tab, slot, init), pc, at)
  {
    forall p | 0 <= p < |pc| ensures Fits(GiveAll(tab, slot, init)[p], pc[p], at[p]) {
      assert Fits(tab[p], pc[p], at[p]);
    }
  }

  lemma GiveBuild(tab: seq<Proc>, pc: seq<PC>, builder: seq<nat>, slot: nat, init: nat)
    requires BuildInv(tab, pc, builder) && slot < |pc| && pc[slot] == ParentWoken
    ensures BuildInv(GiveAll(tab, slot, init), pc, builder)
  {
  }

  lemma GiveParents(tab: seq<Proc>, pc: seq<PC>, slot: nat, init: nat)
    requires ParentInv(tab, pc, init)
    ensures ParentInv(GiveAll(tab, slot, init), pc, init)
  {
    var t := GiveAll(tab, slot, init);
    forall q | 0 <= q < |tab| ensures ParentOk(t, pc, init, q) {
      assert ParentOk(tab, pc, init, q);
    }
  }

  lemma GivePid(tab: seq<Proc>, nextpid: nat, log: Log, slot: nat, init: nat)
    requires PidInv(tab, nextpid, log)
    ensures PidInv(GiveAll(tab, slot, init), nextpid, log)
  {
    var t := GiveAll(tab, slot, init);
    forall p | 0 <= p < |tab| ensures PidOk(t[p], p, nextpid, log) {
      assert PidOk(tab[p], p, nextpid, log);
    }
    forall x | log.exits[x] > log.reaps[x] ensures IsZombie(t, log, x) {
      assert IsZombie(tab, log, x);
    }
  }

  /** init is woken when it inherits a dead child, and nobody else inherits one. */
  lemma AbandonZombie(tab: seq<Proc>, pc: seq<PC>, at: seq<Option<nat>>, init: nat, p: nat)
    requires FitInv(tab, pc, at) && ParentInv(tab, pc, init) && WaitInv(pc) && ZombieInv(tab, pc)
    requires p < |pc| && pc[p] == ParentWoken && NobodyElse(pc, p)
    ensures ZombieInv(Abandon(tab, p, init), pc)
  {
    var t := Abandon(tab, p, init);
    forall q | 0 <= q < |t| ensures NotAwaited(t, pc, q) {
      assert NotAwaited(tab, pc, q) && ParentOk(tab, pc, init, q);
      if tab[q].parent == Some(p) && Leaving(tab[q], pc[q]) {
        assert ZombieChild(tab[q], p);
        assert Fits(tab[init], pc[init], at[init]);
      }
    }
  }

  lemma DieKeepsInv(s: State, r: State, init: nat, c: nat, p: nat)
    requires Inv(s, init) && Runs(s, c, p) && s.pc[p] == ChildrenPassed && r == BecomeZombie(s, p)
    ensures Inv(r, init)
  {
    Running(s, init, c, p);
    HoldMove(s.lock, s.lock, s.pc, s.at, p, Dying);
    SpinMove(s.locks, s.locks, s.pc, s.at, p, Dying, c);
    WaitMove(s.pc, p, Dying);
    assert s.at[p := s.at[p]] == s.at;
    FitPark(s.tab, s.pc, s.at, p, r.tab[p], Dying, s.at[p]);
    BuildMove(s.tab, s.pc, s.builder, p, r.tab[p], Dying);
    DieParents(s.tab, s.pc, init, p);
    ZombieJump(s.tab, s.pc, p, r.tab[p], Dying);
    DiePid(s.tab, s.nextpid, s.log, p);
  }

  lemma DieParents(tab: seq<Proc>, pc: seq<PC>, init: nat, p: nat)
    requires ParentInv(tab, pc, init) && p < |pc| && pc[p] == ChildrenPassed && tab[p].state == RUNNING
    ensures ParentInv(tab[p := tab[p].(state := ZOMBIE)], pc[p := Dying], init)
  {
    var t, m := tab[p := tab[p].(state := ZOMBIE)], pc[p := Dying];
    forall q | 0 <= q < |tab| ensures ParentOk(t, m, init, q) {
      assert ParentOk(tab, pc, init, q);
    }
  }

  lemma DiePid(tab: seq<Proc>, nextpid: nat, log: Log, p: nat)
    requires PidInv(tab, nextpid, log) && p < |tab| && tab[p].state == RUNNING
    ensures PidInv(tab[p := tab[p].(state := ZOMBIE)], nextpid, log.(exits := log.exits + multiset{tab[p].pid}))
  {
    var t, l := tab[p := tab[p].(state := ZOMBIE)], log.(exits := log.exits + multiset{tab[p].pid});
    assert PidOk(tab[p], p, nextpid, log);
    forall q | 0 <= q < |tab| ensures PidOk(t[q], q, nextpid, l) {
      assert PidOk(tab[q], q, nextpid, log);
    }
    forall x | l.exits[x] > l.reaps[x] ensures IsZombie(t, l, x) {
      if x != tab[p].pid { assert IsZombie(tab, log, x); }
    }
  }

  // ---------------------------------------------------------------- wait

  lemma ReapPairs(old_: Proc, proc: Proc, pc: PC, c: nat)
    requires Fits(proc, pc, Some(c)) && pc.Locked? && old_.state == ZOMBIE
    ensures Pairs(old_, Reaped(old_), Off, proc, pc, Unlocking(ToCode), c, Some(c))
  {
  }

  /** A dead child that its parent finds under the lock has left every CPU. */
  lemma DeadChild(s: State, init: nat, c: nat, p: nat, k: nat)
    requires Inv(s, init) && Runs(s, c, p) && s.pc[p].Locked? && k < |s.tab| && ZombieChild(s.tab[k], p)
    ensures s.pc[k] == Dead && s.at[k] == None && k != p && k != init
  {
    Running(s, init, c, p);
    Exclusive(s, init, c, p);
    assert Fits(s.tab[k], s.pc[k], s.at[k]) && ParentOk(s.tab, s.pc, init, k);
  }

  lemma ReapKeepsInv(s: State, r: State, init: nat, c: nat, p: nat, k: nat)
    requires Inv(s, init) && Runs(s, c, p) && s.pc[p] == Locked(Wait) && k < |s.tab| && ZombieChild(s.tab[k], p)
    requires r == Reap(s, p, k)
    ensures Inv(r, init) && s.at[k] == None
  {
    Running(s, init, c, p);
    DeadChild(s, init, c, p, k);
    ReapBuild(s.tab, s.pc, s.builder, p, k);
    ReapPid(s.tab, s.nextpid, s.log, k);
    ReapPairs(s.tab[k], s.tab[p], s.pc[p], c);
    PairKeepsInv(s, r, init, c, p, k, r.tab[k], Off, Unlocking(ToCode));
  }

  lemma ReapBuild(tab: seq<Proc>, pc: seq<PC>, builder: seq<nat>, p: nat, k: nat)
    requires BuildInv(tab, pc, builder) && k < |pc| && p < |pc| && pc[k] == Dead && pc[p] == Locked(Wait) && tab[k].state == ZOMBIE
    ensures BuildInv(tab[k := Reaped(tab[k])], pc[k := Off][p := Unlocking(ToCode)], builder)
  {
  }

  lemma ReapPid(tab: seq<Proc>, nextpid: nat, log: Log, k: nat)
    requires PidInv(tab, nextpid, log) && k < |tab| && tab[k].state == ZOMBIE
    ensures PidInv(tab[k := Reaped(tab[k])], nextpid, log.(reaps := log.reaps + multiset{tab[k].pid}))
  {
    var t, l := tab[k := Reaped(tab[k])], log.(reaps := log.reaps + multiset{tab[k].pid});
    assert PidOk(tab[k], k, nextpid, log);
    forall q | 0 <= q < |tab| ensures PidOk(t[q], q, nextpid, l) {
      assert PidOk(tab[q], q, nextpid, log);
    }
    forall x | l.exits[x] > l.reaps[x] ensures IsZombie(t, l, x) {
      assert IsZombie(tab, log, x);
    }
  }

  /** Going to sleep in wait() with no dead child. */
  lemma WaitZombie(tab: seq<Proc>, pc: seq<PC>, p: nat)
    requires ZombieInv(tab, pc) && p < |pc| && pc[p] == Locked(Wait) && NobodyElse(pc, p)
    requires forall q :: 0 <= q < |tab| ==> !ZombieChild(tab[q], p)
    ensures ZombieInv(tab, pc[p := Ready(ProcChan(p), Table)])
  {
    var m := pc[p := Ready(ProcChan(p), Table)];
    forall q | 0 <= q < |tab| ensures NotAwaited(tab, m, q) {
      assert NotAwaited(tab, pc, q);
    }
  }

  lemma WaitSleepKeepsInv(s: State, r: State, init: nat, c: nat, p: nat)
    requires Inv(s, init) && Runs(s, c, p) && s.pc[p] == Locked(Wait)
    requires forall q :: 0 <= q < |s.tab| ==> !ZombieChild(s.tab[q], p)
    requires r == Goto(s, p, Ready(ProcChan(p), Table))
    ensures Inv(r, init)
  {
    Running(s, init, c, p);
    Exclusive(s, init, c, p);
    var n := Ready(ProcChan(p), Table);
    ParentJump(s.tab, s.pc, init, p, s.tab[p], n);
    assert s.tab[p := s.tab[p]] == s.tab;
    WaitZombie(s.tab, s.pc, p);
    ProceedKeepsInv(s, r, init, c, p, n);
  }
}
