/** Pipes (pipe.c): a ring of PIPESIZE bytes between any number of readers and writers that sleep
    when it is empty or full. */
module Pipe {
  import opened Ring

  const PIPESIZE: nat := 512

  function Min(a: nat, b: nat): nat { if a < b then a else b }

  // ---------------------------------------------------------------- the ring

  /** The ring and its two counters hold the bytes. */
  ghost predicate Shows(data: seq<int>, nread: counter, nwrite: counter, content: seq<int>) {
    && |data| == PIPESIZE && |content| <= PIPESIZE && nwrite == Plus(nread, |content|)
    && Window(data, nread, |content|) == content
  }

  lemma Occupancy(data: seq<int>, nread: counter, nwrite: counter, content: seq<int>)
    requires Shows(data, nread, nwrite, content)
    ensures Ahead(nread, nwrite) == |content| && (nread == nwrite <==> content == [])
    ensures nwrite == Plus(nread, PIPESIZE) <==> |content| == PIPESIZE
  {
    PlusSame(nread, |content|, PIPESIZE);
    PlusSame(nread, 0, |content|);
  }

  lemma PutOne(data: seq<int>, nread: counter, nwrite: counter, content: seq<int>, c: int)
    requires Shows(data, nread, nwrite, content) && |content| < PIPESIZE
    ensures Shows(data[Index(nwrite, PIPESIZE) := c], nread, Plus(nwrite, 1), content + [c])
  {
    WrapIndex(nread, |content|, PIPESIZE);
    Push(data, nread, |content|, c);
    PlusPlus(nread, |content|, 1);
  }

  lemma GetOne(data: seq<int>, nread: counter, nwrite: counter, content: seq<int>)
    requires Shows(data, nread, nwrite, content) && content != []
    ensures content[0] == data[Index(nread, PIPESIZE)] && Shows(data, Plus(nread, 1), nwrite, content[1..])
  {
    Split(data, nread, 1, |content| - 1);
    WrapWindow(data, nread, 1, |content| - 1);
    WindowAt(data, nread, |content|);
    WindowAt(data, nread, 1);
    assert Window(data, nread + 1, |content| - 1) == content[1..];
    PlusPlus(nread, 1, |content| - 1);
  }

  class Ringbuf {
    var data: seq<int>
    var nread: counter
    var nwrite: counter
    ghost var content: seq<int>

    ghost predicate Valid()
      reads this
    {
      Shows(data, nread, nwrite, content)
    }

    constructor ()
      ensures Valid() && content == []
    {
      data := seq(PIPESIZE, _ => 0);
      nread, nwrite, content := 0, 0, [];
    }

    /** pipewrite's loop until the ring is full or everything is in. */
    method Put(bytes: seq<int>) returns (k: nat)
      requires Valid()
      modifies this
      ensures Valid() && k == Min(|bytes|, PIPESIZE - |old(content)|) && content == old(content) + bytes[..k] && nread == old(nread)
    {
      k := 0;
      Occupancy(data, nread, nwrite, content);
      while k < |bytes| && nwrite != Plus(nread, PIPESIZE)
        invariant k <= |bytes| && Valid() && content == old(content) + bytes[..k] && nread == old(nread)
        invariant nwrite == Plus(nread, PIPESIZE) <==> |content| == PIPESIZE
      {
        PutOne(data, nread, nwrite, content, bytes[k]);
        data := data[Index(nwrite, PIPESIZE) := bytes[k]];
        nwrite := Plus(nwrite, 1);
        assert old(content) + bytes[..k] + [bytes[k]] == old(content) + bytes[..k + 1];
        content := content + [bytes[k]];
        k := k + 1;
        Occupancy(data, nread, nwrite, content);
      }
    }

    /** piperead's copying loop. */
    method Get(n: nat) returns (dst: seq<int>)
      requires Valid()
      modifies this
      ensures Valid() && var k := Min(n, |old(content)|); dst == old(content)[..k] && content == old(content)[k..]
    {
      dst := [];
      ghost var c0 := content;
      Occupancy(data, nread, nwrite, content);
      while |dst| < n && nread != nwrite
        invariant |dst| <= n && |dst| <= |c0| && Valid() && dst == c0[..|dst|] && content == c0[|dst|..]
        invariant nread == nwrite <==> content == []
        decreases n - |dst|
      {
        GetOne(data, nread, nwrite, content);
        assert c0[..|dst|] + [c0[|dst|]] == c0[..|dst| + 1];
        dst := dst + [data[Index(nread, PIPESIZE)]];
        nread := Plus(nread, 1);
        content := content[1..];
        Occupancy(data, nread, nwrite, content);
      }
    }

    /** pipewrite by thread i from one acquisition of the lock to the next release, on the ring: t is
        what becomes of the thread, and readers are woken or not. It is the machine's step. */
    method RunWrite(s: State, i: nat) returns (t: Thread, woke: bool)
      requires Valid() && s.content == content && Enabled(s, Step.RunWrite(i))
      modifies this
      ensures Valid() && content == DoWrite(s, i).content
      ensures DoWrite(s, i).threads == if woke then WakeReaders(s.threads[i := t]) else s.threads[i := t]
    {
      var rest := s.threads[i].rest;
      var k := Put(rest);
      assert k == Min(|rest|, Room(s));
      t := if k == |rest| || !s.readopen || s.killed[i] then Out else WriteSleep(rest[k..]);
      woke := k == |rest| || (s.readopen && !s.killed[i]);
    }

    /** piperead likewise; dst is what it returns when it does. */
    method RunRead(s: State, i: nat) returns (dst: seq<int>, t: Thread, woke: bool)
      requires Valid() && s.content == content && Enabled(s, Step.RunRead(i))
      modifies this
      ensures Valid() && content == DoRead(s, i).content && DoRead(s, i).delivered == s.delivered + dst
      ensures DoRead(s, i).threads == if woke then WakeWriters(s.threads[i := t]) else s.threads[i := t]
    {
      Occupancy(data, nread, nwrite, content);
      if nread == nwrite && s.writeopen {
        return [], if s.killed[i] then Out else ReadSleep(s.threads[i].n), false;
      }
      dst := Get(s.threads[i].n);
      t, woke := Out, true;
    }
  }

  // ---------------------------------------------------------------- readers and writers

  /** A thread outside the pipe's code, or in pipewrite or piperead: runnable and about to take the
      lock, or asleep. */
  datatype Thread = Out | Writing(rest: seq<int>) | WriteSleep(rest: seq<int>) | Reading(n: nat) | ReadSleep(n: nat)

  datatype State = State(
    content: seq<int>, readopen: bool, writeopen: bool, threads: seq<Thread>, killed: seq<bool>,
    accepted: seq<int>, delivered: seq<int>)

  /** Each step is one stretch of code under the pipe's lock, or a kill. */
  datatype Step =
    | StartWrite(i: nat, bytes: seq<int>) | RunWrite(i: nat)
    | StartRead(i: nat, n: nat) | RunRead(i: nat)
    | CloseWrite | CloseRead | Kill(i: nat)

  function WakeReader(t: Thread): Thread { if t.ReadSleep? then Reading(t.n) else t }
  function WakeWriter(t: Thread): Thread { if t.WriteSleep? then Writing(t.rest) else t }

  /** wakeup(&p->nread) and wakeup(&p->nwrite). */
  function WakeReaders(ts: seq<Thread>): seq<Thread> {
    seq(|ts|, i requires 0 <= i < |ts| => WakeReader(ts[i]))
  }

  function WakeWriters(ts: seq<Thread>): seq<Thread> {
    seq(|ts|, i requires 0 <= i < |ts| => WakeWriter(ts[i]))
  }

  predicate InWrite(t: Thread) { t.Writing? || t.WriteSleep? }
  predicate InRead(t: Thread) { t.Reading? || t.ReadSleep? }

  predicate Enabled(s: State, step: Step) {
    match step
    case StartWrite(i, bytes) => i < |s.threads| && s.threads[i].Out? && s.writeopen
    case RunWrite(i) => i < |s.threads| && i < |s.killed| && s.threads[i].Writing?
    case StartRead(i, n) => i < |s.threads| && s.threads[i].Out? && s.readopen
    case RunRead(i) => i < |s.threads| && i < |s.killed| && s.threads[i].Reading?
    // the last descriptor for an end is closed when no thread is using it
    case CloseWrite => s.writeopen && forall i :: 0 <= i < |s.threads| ==> !InWrite(s.threads[i])
    case CloseRead => s.readopen && forall i :: 0 <= i < |s.threads| ==> !InRead(s.threads[i])
    case Kill(i) => i < |s.threads| && i < |s.killed|
  }

  function Room(s: State): nat { if |s.content| <= PIPESIZE then PIPESIZE - |s.content| else 0 }

  /** pipewrite from one acquisition of the lock to the next release: bytes go in while there is
      room; on a full pipe it returns -1 at once if the read end is closed or the thread killed,
      else it wakes the readers and sleeps; when all bytes are in it wakes the readers. */
  function DoWrite(s: State, i: nat): State
    requires i < |s.threads| && i < |s.killed| && s.threads[i].Writing?
  {
    var rest := s.threads[i].rest;
    var k := Min(|rest|, Room(s));
    var r := s.(content := s.content + rest[..k], accepted := s.accepted + rest[..k]);
    if k == |rest| then r.(threads := WakeReaders(s.threads[i := Out]))
    else if !s.readopen || s.killed[i] then r.(threads := s.threads[i := Out])
    else r.(threads := WakeReaders(s.threads[i := WriteSleep(rest[k..])]))
  }

  /** piperead likewise. */
  function DoRead(s: State, i: nat): State
    requires i < |s.threads| && i < |s.killed| && s.threads[i].Reading?
  {
    var n := s.threads[i].n;
    if s.content == [] && s.writeopen then
      s.(threads := s.threads[i := if s.killed[i] then Out else ReadSleep(n)])
    else
      var k := Min(n, |s.content|);
      s.(content := s.content[k..], delivered := s.delivered + s.content[..k], threads := WakeWriters(s.threads[i := Out]))
  }

  function Do(s: State, step: Step): State
    requires Enabled(s, step)
  {
    match step
    case StartWrite(i, bytes) => s.(threads := s.threads[i := Writing(bytes)])
    case RunWrite(i) => DoWrite(s, i)
    case StartRead(i, n) => s.(threads := s.threads[i := Reading(n)])
    case RunRead(i) => DoRead(s, i)
    case CloseWrite => s.(writeopen := false, threads := WakeReaders(s.threads))
    case CloseRead => s.(readopen := false, threads := WakeWriters(s.threads))
    case Kill(i) => s.(killed := s.killed[i := true], threads := s.threads[i := WakeReader(WakeWriter(s.threads[i]))])
  }

  // ---------------------------------------------------------------- the stream

  /** Bytes delivered are a prefix of bytes accepted, the rest being in the ring, which never holds
      more than PIPESIZE; a closed end is not in use. */
  ghost predicate StreamInv(s: State) {
    && s.accepted == s.delivered + s.content && |s.content| <= PIPESIZE && |s.killed| == |s.threads|
    && (!s.readopen ==> forall i :: 0 <= i < |s.threads| ==> !InRead(s.threads[i]))
    && (!s.writeopen ==> forall i :: 0 <= i < |s.threads| ==> !InWrite(s.threads[i]))
  }

  /** A sleeping reader means an empty pipe with an open write end, a sleeping writer a full pipe
      with an open read end. */
  predicate SleepOk(s: State, t: Thread) {
    && (t.ReadSleep? ==> s.content == [] && s.writeopen)
    && (t.WriteSleep? ==> |s.content| == PIPESIZE && s.readopen)
  }

  ghost predicate SleepInv(s: State) {
    forall i :: 0 <= i < |s.threads| ==> SleepOk(s, s.threads[i])
  }

  ghost predicate Init(s: State) {
    && s.content == s.accepted == s.delivered == [] && s.readopen && s.writeopen && |s.killed| == |s.threads|
    && (forall i :: 0 <= i < |s.threads| ==> s.threads[i] == Out && !s.killed[i])
  }

  lemma StreamKept(s: State, step: Step)
    requires StreamInv(s) && Enabled(s, step)
    ensures StreamInv(Do(s, step))
  {
    if step.RunWrite? {
      var rest := s.threads[step.i].rest;
      var k := Min(|rest|, Room(s));
      assert s.accepted + rest[..k] == s.delivered + (s.content + rest[..k]);
    } else if step.RunRead? && !(s.content == [] && s.writeopen) {
      var k := Min(s.threads[step.i].n, |s.content|);
      assert s.accepted == (s.delivered + s.content[..k]) + s.content[k..];
    }
  }

  /** The one step that can strand a reader: a killed writer fills the pipe and returns without
      waking anybody. */
  ghost predicate Silent(s: State, step: Step) {
    && step.RunWrite? && Enabled(s, step) && s.killed[step.i] && |s.threads[step.i].rest| > Room(s) > 0
    && exists j :: 0 <= j < |s.threads| && s.threads[j].ReadSleep?
  }

  /** The sleeping discipline is kept by a step exactly when it is not that one. */
  lemma SleepKept(s: State, step: Step)
    requires StreamInv(s) && SleepInv(s) && Enabled(s, step)
    ensures SleepInv(Do(s, step)) <==> !Silent(s, step)
  {
    var r := Do(s, step);
    if Silent(s, step) {
      var j :| 0 <= j < |s.threads| && s.threads[j].ReadSleep?;
      assert SleepOk(s, s.threads[j]);
      assert r.threads[j].ReadSleep? && !SleepOk(r, r.threads[j]);
    } else {
      forall j | 0 <= j < |r.threads| ensures SleepOk(r, r.threads[j]) {
        assert SleepOk(s, s.threads[j]);
      }
    }
  }

  // ---------------------------------------------------------------- runs

  ghost predicate Runs(s: State, steps: seq<Step>)
    decreases |steps|
  {
    steps == [] || (Enabled(s, steps[0]) && Runs(Do(s, steps[0]), steps[1..]))
  }

  ghost function Exec(s: State, steps: seq<Step>): State
    requires Runs(s, steps)
    decreases |steps|
  {
    if steps == [] then s else Exec(Do(s, steps[0]), steps[1..])
  }

  ghost predicate NeverSilent(s: State, steps: seq<Step>)
    requires Runs(s, steps)
    decreases |steps|
  {
    steps == [] || (!Silent(s, steps[0]) && NeverSilent(Do(s, steps[0]), steps[1..]))
  }

  /** For every interleaving: the reader side gets a prefix of what the writer side put in. */
  lemma {:induction false} PipeStream(s: State, steps: seq<Step>)
    requires StreamInv(s) && Runs(s, steps)
    ensures StreamInv(Exec(s, steps)) && Exec(s, steps).delivered <= Exec(s, steps).accepted
    decreases |steps|
  {
    if steps != [] {
      StreamKept(s, steps[0]);
      PipeStream(Do(s, steps[0]), steps[1..]);
    }
  }

  /** And whenever the lock is free, sleepers have reason to sleep, unless a killed writer has
      filled the pipe while a reader slept. */
  lemma {:induction false} SleepersHaveReason(s: State, steps: seq<Step>)
    requires StreamInv(s) && SleepInv(s) && Runs(s, steps) && NeverSilent(s, steps)
    ensures SleepInv(Exec(s, steps))
    decreases |steps|
  {
    if steps != [] {
      StreamKept(s, steps[0]);
      SleepKept(s, steps[0]);
      SleepersHaveReason(Do(s, steps[0]), steps[1..]);
    }
  }

  /** In particular as long as nobody is killed. */
  lemma {:induction false} NoKillNoStranding(s: State, steps: seq<Step>)
    requires Runs(s, steps) && (forall i :: 0 <= i < |s.killed| ==> !s.killed[i]) && forall j :: 0 <= j < |steps| ==> !steps[j].Kill?
    ensures NeverSilent(s, steps)
    decreases |steps|
  {
    if steps != [] {
      NoKillNoStranding(Do(s, steps[0]), steps[1..]);
    }
  }

  /** The exception is real: thread 0 sleeps in piperead, thread 1 is killed and writes 513 bytes;
      it fills the pipe and leaves, and thread 0 sleeps on although the pipe is full. */
  lemma KilledWriterStrandsReader(s: State, bytes: seq<int>) returns (steps: seq<Step>)
    requires Init(s) && |s.threads| == 2 && |bytes| == PIPESIZE + 1
    ensures Runs(s, steps)
    ensures var r := Exec(s, steps); |r.threads| == 2 && r.threads[0] == ReadSleep(1) && r.threads[1] == Out && |r.content| == PIPESIZE
  {
    var s1 := Do(s, StartRead(0, 1));
    var s2 := Do(s1, RunRead(0));
    var s3 := Do(s2, StartWrite(1, bytes));
    var s4 := Do(s3, Kill(1));
    var s5 := Do(s4, RunWrite(1));
    assert s5.threads[0] == ReadSleep(1) && s5.threads[1] == Out;
    RunsCons(s4, RunWrite(1), []);
    RunsCons(s3, Kill(1), [RunWrite(1)]);
    RunsCons(s2, StartWrite(1, bytes), [Kill(1)] + [RunWrite(1)]);
    RunsCons(s1, RunRead(0), [StartWrite(1, bytes)] + ([Kill(1)] + [RunWrite(1)]));
    steps := [StartRead(0, 1)] + ([RunRead(0)] + ([StartWrite(1, bytes)] + ([Kill(1)] + [RunWrite(1)])));
    RunsCons(s, StartRead(0, 1), [RunRead(0)] + ([StartWrite(1, bytes)] + ([Kill(1)] + [RunWrite(1)])));
  }

  lemma RunsCons(s: State, step: Step, rest: seq<Step>)
    requires Enabled(s, step) && Runs(Do(s, step), rest)
    ensures Runs(s, [step] + rest) && Exec(s, [step] + rest) == Exec(Do(s, step), rest)
  {
    assert ([step] + rest)[1..] == rest;
  }
}
