/** The process table (proc.c): what each scan of ptable.proc does to it, as functions of the
    whole table, and the scanning loops themselves. */
module ProcTable {
  import opened Options

  datatype ProcState = UNUSED | EMBRYO | SLEEPING | RUNNABLE | RUNNING | ZOMBIE

  /** Sleep channels are addresses: wait() sleeps on the address of its own process slot. */
  datatype Chan = ProcChan(slot: nat) | ObjChan(id: nat)

  datatype Proc = Proc(state: ProcState, pid: nat, parent: Option<nat>, chan: Option<Chan>, killed: bool, kstack: bool)

  // ---------------------------------------------------------------- wakeup1

  function Woken(p: Proc, chan: Chan): Proc {
    if p.state == SLEEPING && p.chan == Some(chan) then p.(state := RUNNABLE) else p
  }

  function WakeAll(t: seq<Proc>, chan: Chan): seq<Proc> {
    seq(|t|, i requires 0 <= i < |t| => Woken(t[i], chan))
  }

  // ---------------------------------------------------------------- exit: abandoned children

  function Given(p: Proc, slot: nat, init: nat): Proc {
    if p.parent == Some(slot) then p.(parent := Some(init)) else p
  }

  function GiveAll(t: seq<Proc>, slot: nat, init: nat): seq<Proc> {
    seq(|t|, i requires 0 <= i < |t| => Given(t[i], slot, init))
  }

  predicate ZombieChild(p: Proc, slot: nat) {
    p.parent == Some(slot) && p.state == ZOMBIE
  }

  /** The table after exit() has passed slot's children to init. */
  function Abandon(t: seq<Proc>, slot: nat, init: nat): seq<Proc> {
    if exists i :: 0 <= i < |t| && ZombieChild(t[i], slot)
    then WakeAll(GiveAll(t, slot, init), ProcChan(init)) else GiveAll(t, slot, init)
  }

  // ---------------------------------------------------------------- searches

  /** k is the first slot satisfying test, or |t| when there is none. */
  predicate First(t: seq<Proc>, test: Proc -> bool, k: nat) {
    && k <= |t| && (k < |t| ==> test(t[k]))
    && forall i :: 0 <= i < k ==> !test(t[i])
  }

  predicate HasChild(t: seq<Proc>, slot: nat) {
    exists i :: 0 <= i < |t| && t[i].parent == Some(slot)
  }

  /** What wait() does to the slot of a dead child. */
  function Reaped(p: Proc): Proc {
    p.(state := UNUSED, pid := 0, parent := None, killed := false, kstack := false)
  }

  function Killed(p: Proc): Proc {
    p.(killed := true, state := if p.state == SLEEPING then RUNNABLE else p.state)
  }

  // ---------------------------------------------------------------- the loops

  /** ptable.proc, updated in place. */
  class Table {
    const proc: array<Proc>
    const init: nat

    constructor (size: nat, init: nat)
      requires init < size
      ensures fresh(proc) && proc.Length == size && this.init == init
      ensures forall i :: 0 <= i < size ==> proc[i].state == UNUSED
    {
      proc := new Proc[size](_ => Proc(UNUSED, 0, None, None, false, false));
      this.init := init;
    }

    method Wakeup1(chan: Chan)
      modifies proc
      ensures proc[..] == WakeAll(old(proc[..]), chan)
    {
      var i := 0;
      while i < proc.Length
        invariant 0 <= i <= proc.Length
        invariant forall j :: 0 <= j < i ==> proc[j] == Woken(old(proc[j]), chan)
        invariant forall j :: i <= j < proc.Length ==> proc[j] == old(proc[j])
      {
        if proc[i].state == SLEEPING && proc[i].chan == Some(chan) {
          proc[i] := proc[i].(state := RUNNABLE);
        }
        i := i + 1;
      }
    }

    /** The loop in exit(): reparent, and wake init for every child that is already dead. */
    method PassChildren(slot: nat)
      modifies proc
      ensures proc[..] == Abandon(old(proc[..]), slot, init)
    {
      ghost var t := proc[..];
      var i := 0;
      ghost var woke := false;
      while i < proc.Length
        invariant 0 <= i <= proc.Length == |t|
        invariant woke <==> exists j :: 0 <= j < i && ZombieChild(t[j], slot)
        invariant forall j :: 0 <= j < |t| ==> proc[j] == Passed(t[j], j < i, woke, slot, init)
      {
        var p := proc[i];
        if p.parent == Some(slot) {
          proc[i] := p.(parent := Some(init));
          if p.state == ZOMBIE {
            woke := true;
            Wakeup1(ProcChan(init));
          }
        }
        i := i + 1;
      }
      assert forall j :: 0 <= j < |t| ==> proc[j] == Passed(t[j], true, woke, slot, init);
    }

    /** allocproc: the first UNUSED slot becomes EMBRYO and gets the next pid. */
    method TakeSlot(pid: nat) returns (k: nat)
      modifies proc
      ensures First(old(proc[..]), (p: Proc) => p.state == UNUSED, k)
      ensures k < proc.Length ==> proc[..] == old(proc[..])[k := old(proc[k]).(state := EMBRYO, pid := pid)]
      ensures k == proc.Length ==> proc[..] == old(proc[..])
    {
      k := 0;
      while k < proc.Length && proc[k].state != UNUSED
        invariant 0 <= k <= proc.Length
        invariant forall i :: 0 <= i < k ==> proc[i].state != UNUSED
      {
        k := k + 1;
      }
      if k < proc.Length {
        proc[k] := proc[k].(state := EMBRYO, pid := pid);
      }
    }

    /** One scan of wait(): reaps the first dead child, else reports whether there are children. */
    method ReapOne(slot: nat) returns (k: nat, haveKids: bool, pid: nat)
      modifies proc
      ensures First(old(proc[..]), (p: Proc) => ZombieChild(p, slot), k)
      ensures k < proc.Length ==> pid == old(proc[k]).pid && proc[..] == old(proc[..])[k := Reaped(old(proc[k]))]
      ensures k == proc.Length ==> proc[..] == old(proc[..]) && (haveKids <==> HasChild(proc[..], slot))
    {
      k, haveKids, pid := 0, false, 0;
      while k < proc.Length
        invariant 0 <= k <= proc.Length
        invariant forall i :: 0 <= i < k ==> !ZombieChild(proc[i], slot)
        invariant haveKids <==> exists i :: 0 <= i < k && proc[i].parent == Some(slot)
      {
        if proc[k].parent == Some(slot) {
          haveKids := true;
          if proc[k].state == ZOMBIE {
            pid := proc[k].pid;
            proc[k] := Reaped(proc[k]);
            return;
          }
        }
        k := k + 1;
      }
      assert forall i :: 0 <= i < proc.Length ==> proc[..][i] == proc[i];
    }

    /** kill: marks the first slot with the pid and wakes it. */
    method Kill(pid: nat) returns (k: nat)
      modifies proc
      ensures First(old(proc[..]), (p: Proc) => p.pid == pid, k)
      ensures k < proc.Length ==> proc[..] == old(proc[..])[k := Killed(old(proc[k]))]
      ensures k == proc.Length ==> proc[..] == old(proc[..])
    {
      k := 0;
      while k < proc.Length && proc[k].pid != pid
        invariant 0 <= k <= proc.Length
        invariant forall i :: 0 <= i < k ==> proc[i].pid != pid
      {
        k := k + 1;
      }
      if k < proc.Length {
        proc[k] := Killed(proc[k]);
      }
    }
  }

  /** A slot during exit()'s scan: whether the scan has passed it, and whether init was woken. */
  ghost function Passed(p: Proc, done: bool, woke: bool, slot: nat, init: nat): Proc {
    var q := if done then Given(p, slot, init) else p;
    if woke then Woken(q, ProcChan(init)) else q
  }
}
