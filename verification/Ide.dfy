/** The disk driver as a queue of requests served by interrupts (ide.c), and the driver for a disk
    in memory, which serves each request at once (memide.c). The first is shown to do the same as
    the second run in the order in which the device completes the requests. */
module Ide {
  import opened Options

  datatype Buf<D> = Buf(block: nat, busy: bool, valid: bool, dirty: bool, data: D)

  // ---------------------------------------------------------------- memide.c

  /** Buffers and disk, as both drivers' callers see them. */
  datatype View<D> = View(bufs: seq<Buf<D>>, disk: seq<D>)

  /** iderw has something to do, and the block exists. */
  predicate Wanted<D>(buf: Buf<D>, disk: seq<D>) {
    buf.busy && !(buf.valid && !buf.dirty) && buf.block < |disk|
  }

  /** What memide.c's iderw makes of a buffer, and of the disk. */
  function SyncBuf<D>(buf: Buf<D>, disk: seq<D>): Buf<D>
    requires buf.block < |disk|
  {
    if buf.dirty then buf.(valid := true, dirty := false) else buf.(valid := true, data := disk[buf.block])
  }

  function SyncDisk<D>(buf: Buf<D>, disk: seq<D>): seq<D>
    requires buf.block < |disk|
  {
    if buf.dirty then disk[buf.block := buf.data] else disk
  }

  function Sync<D>(v: View<D>, b: nat): View<D>
    requires b < |v.bufs| && v.bufs[b].block < |v.disk|
  {
    View(v.bufs[b := SyncBuf(v.bufs[b], v.disk)], SyncDisk(v.bufs[b], v.disk))
  }

  /** memide.c's iderw itself; a panic is reported as false. */
  method MemIderw<D>(v: View<D>, b: nat) returns (ok: bool, r: View<D>)
    requires b < |v.bufs|
    ensures ok <==> Wanted(v.bufs[b], v.disk)
    ensures r == if ok then Sync(v, b) else v
  {
    var buf := v.bufs[b];
    if !buf.busy || (buf.valid && !buf.dirty) || buf.block >= |v.disk| {
      return false, v;
    }
    var disk := v.disk;
    if buf.dirty {
      buf := buf.(dirty := false);
      disk := disk[buf.block := buf.data];
    } else {
      buf := buf.(data := disk[buf.block]);
    }
    buf := buf.(valid := true);
    return true, View(v.bufs[b := buf], disk);
  }

  // ---------------------------------------------------------------- the queue of ide.c

  predicate NextIs(qnext: seq<Option<nat>>, q: seq<nat>, i: nat)
    requires i < |q|
  {
    q[i] < |qnext| && qnext[q[i]] == if i + 1 < |q| then Some(q[i + 1]) else None
  }

  /** Following qnext from the head gives the buffers of q in order. */
  predicate Queued(head: Option<nat>, qnext: seq<Option<nat>>, q: seq<nat>) {
    && head == (if q == [] then None else Some(q[0]))
    && (forall i :: 0 <= i < |q| ==> NextIs(qnext, q, i))
  }

  predicate NoDup(q: seq<nat>) { forall i, j :: 0 <= i < j < |q| ==> q[i] != q[j] }

  /** The end of the list from p on, at most n links away. */
  function Tail(qnext: seq<Option<nat>>, p: nat, n: nat): nat
    decreases n
  {
    if n == 0 || p >= |qnext| || qnext[p].None? then p else Tail(qnext, qnext[p].value, n - 1)
  }

  /** The head and the links after iderw has appended b. */
  function HeadWith(head: Option<nat>, b: nat): Option<nat> { if head.None? then Some(b) else head }

  function LinksWith(head: Option<nat>, qnext: seq<Option<nat>>, b: nat): (r: seq<Option<nat>>)
    requires b < |qnext|
    ensures |r| == |qnext|
  {
    var cleared := qnext[b := None];
    if head.None? then cleared else
    var p := Tail(cleared, head.value, |qnext|);
    if p < |qnext| then cleared[p := Some(b)] else cleared
  }

  lemma {:induction false} TailIs(qnext: seq<Option<nat>>, q: seq<nat>, i: nat, n: nat)
    requires (forall j :: 0 <= j < |q| ==> NextIs(qnext, q, j)) && i < |q| <= i + n + 1
    ensures Tail(qnext, q[i], n) == q[|q| - 1]
    decreases n
  {
    assert NextIs(qnext, q, i);
    if i + 1 < |q| { TailIs(qnext, q, i + 1, n - 1); }
  }

  ghost function Upto(n: nat): (r: set<nat>)
    ensures |r| == n && forall x: nat :: x in r <==> x < n
  {
    if n == 0 then {} else Upto(n - 1) + {n - 1}
  }

  /** No more different buffers than there are. */
  lemma {:induction false} FewerThan(q: seq<nat>, all: set<nat>)
    requires NoDup(q) && forall i :: 0 <= i < |q| ==> q[i] in all
    ensures |q| <= |all|
    decreases |q|
  {
    if q != [] {
      var last := q[|q| - 1];
      FewerThan(q[..|q| - 1], all - {last});
    }
  }

  /** Following the links leads to the last request. */
  lemma QueueEnd(qnext: seq<Option<nat>>, q: seq<nat>)
    requires (forall j :: 0 <= j < |q| ==> NextIs(qnext, q, j)) && NoDup(q) && q != []
    ensures Tail(qnext, q[0], |qnext|) == q[|q| - 1] < |qnext|
  {
    forall j | 0 <= j < |q| ensures q[j] in Upto(|qnext|) { assert NextIs(qnext, q, j); }
    FewerThan(q, Upto(|qnext|));
    TailIs(qnext, q, 0, |qnext|);
    assert NextIs(qnext, q, |q| - 1);
  }

  lemma AppendLink(qnext: seq<Option<nat>>, q: seq<nat>, b: nat, j: nat)
    requires (forall j :: 0 <= j < |q| ==> NextIs(qnext, q, j)) && NoDup(q) && q != [] && b < |qnext| && b !in q
    requires qnext[b] == None && q[|q| - 1] < |qnext| && j <= |q|
    ensures NextIs(qnext[q[|q| - 1] := Some(b)], q + [b], j)
  {
    if j < |q| { assert NextIs(qnext, q, j); }
  }

  /** Appending to the list appends to the queue. */
  lemma AppendQueue(head: Option<nat>, qnext: seq<Option<nat>>, q: seq<nat>, b: nat)
    requires Queued(head, qnext, q) && NoDup(q) && b < |qnext| && b !in q
    ensures Queued(HeadWith(head, b), LinksWith(head, qnext, b), q + [b])
    ensures q != [] ==> q[|q| - 1] < |qnext| && LinksWith(head, qnext, b) == qnext[b := None][q[|q| - 1] := Some(b)]
  {
    var cleared := qnext[b := None];
    forall j | 0 <= j < |q| ensures NextIs(cleared, q, j) { assert NextIs(qnext, q, j); }
    if q != [] {
      QueueEnd(cleared, q);
      forall j | 0 <= j < |q + [b]| ensures NextIs(LinksWith(head, qnext, b), q + [b], j) {
        AppendLink(cleared, q, b, j);
      }
    }
  }

  /** iderw's loop: follows the list to its end and appends b. */
  method Append(head: Option<nat>, qnext: seq<Option<nat>>, b: nat, ghost q: seq<nat>) returns (head': Option<nat>, qnext': seq<Option<nat>>)
    requires Queued(head, qnext, q) && NoDup(q) && b < |qnext| && b !in q
    ensures head' == HeadWith(head, b) && qnext' == LinksWith(head, qnext, b)
    ensures Queued(head', qnext', q + [b]) && NoDup(q + [b])
  {
    AppendQueue(head, qnext, q, b);
    qnext' := qnext[b := None];
    head' := head;
    if head == None {
      head' := Some(b);
      return;
    }
    var p := head.value;
    ghost var i := 0;
    assert NextIs(qnext, q, 0);
    while qnext'[p] != None
      invariant 0 <= i < |q| && p == q[i] && NextIs(qnext, q, i)
      decreases |q| - i
    {
      p := qnext'[p].value;
      i := i + 1;
      assert NextIs(qnext, q, i);
    }
    qnext' := qnext'[p := Some(b)];
  }

  /** ideintr's first lines: the head is the finished request, the queue goes on after it. */
  lemma PopQueue(head: Option<nat>, qnext: seq<Option<nat>>, q: seq<nat>)
    requires Queued(head, qnext, q) && q != []
    ensures head == Some(q[0]) && q[0] < |qnext| && Queued(qnext[q[0]], qnext, q[1..])
  {
    assert NextIs(qnext, q, 0);
    forall i | 0 <= i < |q[1..]| ensures NextIs(qnext, q[1..], i) {
      assert NextIs(qnext, q, i + 1);
    }
  }

  // ---------------------------------------------------------------- the driver as a machine

  /** What the device was told by idestart: a write carries the data. */
  datatype Command<D> = Read(block: nat) | Write(block: nat, data: D)

  datatype Device<D> = Idle | Working(cmd: Command<D>) | Finished(cmd: Command<D>)

  function Start<D>(buf: Buf<D>): Device<D> {
    Working(if buf.dirty then Write(buf.block, buf.data) else Read(buf.block))
  }

  /** idequeue and the qnext links, and a run's past: the requests not yet taken off the list, the
      calls of iderw in order, and those served, in the order of completion. */
  datatype State<D> = State(
    bufs: seq<Buf<D>>, disk: seq<D>, dev: Device<D>, head: Option<nat>, qnext: seq<Option<nat>>, waiting: set<nat>,
    queue: seq<nat>, calls: seq<nat>, served: seq<nat>)

  datatype Step<D> =
    | Change(b: nat, buf: Buf<D>)    // anything else that is done to a buffer outside the driver
    | Call(b: nat)                   // iderw up to its first sleep
    | Complete                       // the device finishes its command
    | Interrupt                      // ideintr
    | Return(b: nat)                 // iderw finds its request done

  ghost predicate Enabled<D>(s: State<D>, step: Step<D>) {
    match step
    case Change(b, buf) => b < |s.bufs| && b !in s.waiting && buf.block < |s.disk|
    case Call(b) => b < |s.bufs| && b < |s.qnext| && b !in s.waiting && Wanted(s.bufs[b], s.disk)
    case Complete => s.dev.Working?
    case Interrupt => s.dev.Finished? && HeadThere(s)
    case Return(b) => b < |s.bufs| && b in s.waiting && s.bufs[b].valid && !s.bufs[b].dirty
  }

  function Effect<D>(cmd: Command<D>, disk: seq<D>): seq<D> {
    if cmd.Write? && cmd.block < |disk| then disk[cmd.block := cmd.data] else disk
  }

  /** The first request and the one after it name buffers. */
  predicate HeadThere<D>(s: State<D>) {
    && s.head.Some? && s.head.value < |s.bufs| && s.head.value < |s.qnext|
    && (s.qnext[s.head.value].Some? ==> s.qnext[s.head.value].value < |s.bufs|)
  }

  /** ideintr: the list moves on, data for a read, flags, and the next command. */
  function Handle<D>(s: State<D>): State<D>
    requires s.dev.Finished? && HeadThere(s)
  {
    var b := s.head.value;
    var buf := s.bufs[b];
    var read := !buf.dirty && s.dev.cmd.block < |s.disk|;
    var done := (if read then buf.(data := s.disk[s.dev.cmd.block]) else buf).(valid := true, dirty := false);
    var bufs := s.bufs[b := done];
    var next := s.qnext[b];
    s.(bufs := bufs, head := next, dev := if next.Some? then Start(bufs[next.value]) else Idle,
       queue := if s.queue == [] then [] else s.queue[1..])
  }

  ghost function Do<D>(s: State<D>, step: Step<D>): State<D>
    requires Enabled(s, step)
  {
    match step
    case Change(b, buf) => s.(bufs := s.bufs[b := buf])
    case Call(b) =>
      s.(head := HeadWith(s.head, b), qnext := LinksWith(s.head, s.qnext, b), waiting := s.waiting + {b},
         dev := if s.head.None? then Start(s.bufs[b]) else s.dev, queue := s.queue + [b], calls := s.calls + [b])
    case Complete =>
      s.(disk := Effect(s.dev.cmd, s.disk), dev := Finished(s.dev.cmd), served := s.served + s.queue[..if s.queue == [] then 0 else 1])
    case Interrupt => Handle(s)
    case Return(b) => s.(waiting := s.waiting - {b})
  }

  // ---------------------------------------------------------------- what every step keeps

  /** Requests that the device has not completed yet. */
  function Pending<D>(s: State<D>): seq<nat> {
    if s.dev.Finished? && s.queue != [] then s.queue[1..] else s.queue
  }

  /** The list is the queue, and the calls not served yet are on it. */
  ghost predicate Listed<D>(s: State<D>) {
    && |s.qnext| == |s.bufs| && Queued(s.head, s.qnext, s.queue) && NoDup(s.queue) && (s.dev.Idle? <==> s.queue == [])
    && s.calls == s.served + Pending(s)
  }

  /** What is queued is wanted and waited for, and the device works on the first of it. */
  ghost predicate Requested<D>(s: State<D>) {
    && (forall b :: b in s.queue ==> b < |s.bufs| && b in s.waiting && Wanted(s.bufs[b], s.disk))
    && (forall b :: b in s.waiting ==> b < |s.bufs| && (b in s.queue || (s.bufs[b].valid && !s.bufs[b].dirty)))
    && (forall b :: 0 <= b < |s.bufs| ==> s.bufs[b].block < |s.disk|)
    && (s.queue != [] ==> s.queue[0] in s.queue && !s.dev.Idle? && Working(s.dev.cmd) == Start(s.bufs[s.queue[0]]))
  }

  ghost predicate Inv<D>(s: State<D>) { Listed(s) && Requested(s) }

  /** The state as a caller of the in-memory driver would see it: the request the device has
      completed counts as served although its buffer waits for the interrupt. */
  ghost function Abs<D>(s: State<D>): View<D>
    requires Inv(s)
  {
    if s.dev.Finished?
    then View(s.bufs[s.queue[0] := SyncBuf(s.bufs[s.queue[0]], s.disk)], s.disk)
    else View(s.bufs, s.disk)
  }

  /** Boot: nothing queued, and every buffer names a block of the disk. */
  ghost predicate Init<D>(s: State<D>) {
    && s.dev.Idle? && s.head.None? && |s.qnext| == |s.bufs| && s.queue == [] && s.waiting == {} && s.calls == [] && s.served == []
    && forall b :: 0 <= b < |s.bufs| ==> s.bufs[b].block < |s.disk|
  }

  // ---------------------------------------------------------------- refinement

  /** A step seen by the in-memory driver: a change outside it, or one whole iderw. */
  datatype SpecStep<D> = Outside(b: nat, buf: Buf<D>) | Served(b: nat)

  ghost predicate SpecEnabled<D>(v: View<D>, step: SpecStep<D>) {
    step.b < |v.bufs| && (step.Served? ==> Wanted(v.bufs[step.b], v.disk))
  }

  ghost function SpecDo<D>(v: View<D>, step: SpecStep<D>): View<D>
    requires SpecEnabled(v, step)
  {
    match step
    case Outside(b, buf) => v.(bufs := v.bufs[b := buf])
    case Served(b) => Sync(v, b)
  }

  /** What a step of the driver is to the in-memory driver. */
  ghost function Shown<D>(s: State<D>, step: Step<D>): seq<SpecStep<D>> {
    match step
    case Change(b, buf) => [Outside(b, buf)]
    case Complete => if s.queue == [] then [] else [Served(s.queue[0])]
    case _ => []
  }

  ghost predicate SpecRuns<D>(v: View<D>, steps: seq<SpecStep<D>>)
    decreases |steps|
  {
    steps == [] || (SpecEnabled(v, steps[0]) && SpecRuns(SpecDo(v, steps[0]), steps[1..]))
  }

  ghost function SpecExec<D>(v: View<D>, steps: seq<SpecStep<D>>): View<D>
    requires SpecRuns(v, steps)
    decreases |steps|
  {
    if steps == [] then v else SpecExec(SpecDo(v, steps[0]), steps[1..])
  }

  lemma CallListed<D>(s: State<D>, b: nat, r: State<D>)
    requires Inv(s) && Enabled(s, Call(b)) && r == Do(s, Call(b))
    ensures Listed(r)
  {
    AppendQueue(s.head, s.qnext, s.queue, b);
    assert Pending(r) == Pending(s) + [b];
    assert s.calls + [b] == s.served + (Pending(s) + [b]);
  }

  lemma CallRequested<D>(s: State<D>, b: nat, r: State<D>)
    requires Inv(s) && Enabled(s, Call(b)) && r == Do(s, Call(b))
    ensures Requested(r)
  {
    assert r.queue[0] in r.queue;
    assert forall c :: c in r.queue <==> c in s.queue || c == b;
  }

  lemma CallKeeps<D>(s: State<D>, b: nat)
    requires Inv(s) && Enabled(s, Call(b))
    ensures Inv(Do(s, Call(b))) && Abs(Do(s, Call(b))) == Abs(s)
  {
    CallListed(s, b, Do(s, Call(b)));
    CallRequested(s, b, Do(s, Call(b)));
  }

  lemma FirstMoves(served: seq<nat>, queue: seq<nat>)
    requires queue != []
    ensures served + queue[..1] + queue[1..] == served + queue
  {
    assert queue == queue[..1] + queue[1..];
  }

  lemma CompleteListed<D>(s: State<D>, r: State<D>)
    requires Listed(s) && s.dev.Working? && r == Do(s, Complete)
    ensures s.queue != [] && Listed(r)
  {
    FirstMoves(s.served, s.queue);
  }

  lemma CompleteRequested<D>(s: State<D>, r: State<D>)
    requires Requested(s) && s.queue != [] && s.dev.Working? && r == Do(s, Complete)
    ensures s.queue[0] in s.queue && Wanted(s.bufs[s.queue[0]], s.disk) && Requested(r)
  {
  }

  lemma CompleteKeeps<D>(s: State<D>)
    requires Inv(s) && s.dev.Working?
    ensures s.queue != [] && s.queue[0] in s.queue && Wanted(s.bufs[s.queue[0]], s.disk)
    ensures Inv(Do(s, Complete)) && Abs(Do(s, Complete)) == Sync(Abs(s), s.queue[0])
  {
    CompleteListed(s, Do(s, Complete));
    CompleteRequested(s, Do(s, Complete));
  }

  lemma InterruptListed<D>(s: State<D>, r: State<D>)
    requires Inv(s) && Enabled(s, Interrupt) && r == Handle(s)
    ensures s.head.value == s.queue[0] && Listed(r)
  {
    PopQueue(s.head, s.qnext, s.queue);
    assert Pending(r) == r.queue;
  }

  lemma InterruptRequested<D>(s: State<D>, r: State<D>)
    requires Inv(s) && Enabled(s, Interrupt) && r == Handle(s) && Listed(r) && s.head.value == s.queue[0]
    ensures Requested(r)
  {
    assert s.queue == [s.queue[0]] + r.queue;
    assert forall c :: c in r.queue ==> c in s.queue && c != s.queue[0];
    assert r.queue != [] ==> r.queue[0] in r.queue;
  }

  lemma InterruptKeeps<D>(s: State<D>)
    requires Inv(s) && Enabled(s, Interrupt)
    ensures Inv(Handle(s)) && Abs(Handle(s)) == Abs(s)
  {
    InterruptListed(s, Handle(s));
    InterruptRequested(s, Handle(s));
  }

  lemma ChangeKeeps<D>(s: State<D>, b: nat, buf: Buf<D>)
    requires Inv(s) && Enabled(s, Change(b, buf))
    ensures Inv(Do(s, Change(b, buf))) && Abs(Do(s, Change(b, buf))) == SpecDo(Abs(s), Outside(b, buf))
  {
  }

  lemma ReturnKeeps<D>(s: State<D>, b: nat)
    requires Inv(s) && Enabled(s, Return(b))
    ensures Inv(Do(s, Return(b))) && Abs(Do(s, Return(b))) == Abs(s)
    ensures Abs(s).bufs[b] == s.bufs[b]
  {
  }

  /** Each step of the driver is no step, or the steps shown, of the in-memory driver. */
  lemma StepRefines<D>(s: State<D>, step: Step<D>)
    requires Inv(s) && Enabled(s, step)
    ensures Inv(Do(s, step)) && SpecRuns(Abs(s), Shown(s, step))
    ensures Abs(Do(s, step)) == SpecExec(Abs(s), Shown(s, step))
  {
    match step
    case Change(b, buf) => ChangeKeeps(s, b, buf);
    case Call(b) => CallKeeps(s, b);
    case Complete => CompleteKeeps(s);
    case Interrupt => InterruptKeeps(s);
    case Return(b) => ReturnKeeps(s, b);
  }

  ghost predicate Runs<D>(s: State<D>, steps: seq<Step<D>>)
    decreases |steps|
  {
    steps == [] || (Enabled(s, steps[0]) && Runs(Do(s, steps[0]), steps[1..]))
  }

  ghost function Exec<D>(s: State<D>, steps: seq<Step<D>>): State<D>
    requires Runs(s, steps)
    decreases |steps|
  {
    if steps == [] then s else Exec(Do(s, steps[0]), steps[1..])
  }

  ghost function Trace<D>(s: State<D>, steps: seq<Step<D>>): seq<SpecStep<D>>
    requires Runs(s, steps)
    decreases |steps|
  {
    if steps == [] then [] else Shown(s, steps[0]) + Trace(Do(s, steps[0]), steps[1..])
  }

  /** The buffers served in a trace, in order. */
  ghost function ServedIn<D>(t: seq<SpecStep<D>>): seq<nat> {
    if t == [] then [] else (if t[0].Served? then [t[0].b] else []) + ServedIn(t[1..])
  }

  /** A trace of at most one step followed by another. */
  lemma SpecAppend<D>(v: View<D>, r: View<D>, a: seq<SpecStep<D>>, t: seq<SpecStep<D>>)
    requires |a| <= 1 && SpecRuns(v, a) && r == SpecExec(v, a) && SpecRuns(r, t)
    ensures SpecRuns(v, a + t) && SpecExec(v, a + t) == SpecExec(r, t)
  {
    if a == [] {
      assert a + t == t;
    } else {
      assert a[1..] == [] && SpecExec(v, a) == SpecExec(SpecDo(v, a[0]), a[1..]) == SpecDo(v, a[0]);
      assert (a + t)[1..] == t && (a + t)[0] == a[0];
    }
  }

  lemma StepServes<D>(s: State<D>, step: Step<D>)
    requires Enabled(s, step)
    ensures Do(s, step).served == s.served + ServedIn(Shown(s, step))
  {
    var one: seq<SpecStep<D>> := Shown(s, step);
    if one != [] { assert one[1..] == []; }
  }

  lemma {:induction false} RunServes<D>(s: State<D>, steps: seq<Step<D>>)
    requires Runs(s, steps)
    ensures Exec(s, steps).served == s.served + ServedIn(Trace(s, steps))
    decreases |steps|
  {
    if steps != [] {
      var r := Do(s, steps[0]);
      RunServes(r, steps[1..]);
      StepServes(s, steps[0]);
      ServedAppend(Shown(s, steps[0]), Trace(r, steps[1..]));
    }
  }

  lemma ServedAppend<D>(a: seq<SpecStep<D>>, t: seq<SpecStep<D>>)
    requires |a| <= 1
    ensures ServedIn(a + t) == ServedIn(a) + ServedIn(t)
  {
    if a == [] {
      assert a + t == t;
    } else {
      assert (a + t)[1..] == t && a[1..] == [] && (a + t)[0] == a[0];
    }
  }

  lemma {:induction false} RunRefines<D>(s: State<D>, steps: seq<Step<D>>)
    requires Inv(s) && Runs(s, steps)
    ensures Inv(Exec(s, steps)) && SpecRuns(Abs(s), Trace(s, steps))
    ensures Abs(Exec(s, steps)) == SpecExec(Abs(s), Trace(s, steps))
    decreases |steps|
  {
    if steps != [] {
      var r, shown := Do(s, steps[0]), Shown(s, steps[0]);
      StepRefines(s, steps[0]);
      RunRefines(r, steps[1..]);
      SpecAppend(Abs(s), Abs(r), shown, Trace(r, steps[1..]));
    }
  }

  /** Driver refinement. After any interleaving of calls, completions and interrupts: what callers
      see is what memide.c's iderw produces when run in the order of completion; that order is
      the order of the calls, each call being served at most once and the rest being queued; and
      a call that can return does so with the flags and data the in-memory driver gives. */
  lemma DriverRefinement<D>(boot: State<D>, steps: seq<Step<D>>, s: State<D>)
    requires Init(boot) && Runs(boot, steps) && s == Exec(boot, steps)
    ensures Inv(s) && SpecRuns(View(boot.bufs, boot.disk), Trace(boot, steps))
    ensures Abs(s) == SpecExec(View(boot.bufs, boot.disk), Trace(boot, steps)) && s.served == ServedIn(Trace(boot, steps))
    ensures s.calls == s.served + Pending(s) && Abs(s).disk == s.disk
    ensures forall b :: 0 <= b < |s.bufs| && Enabled(s, Return(b)) ==> s.bufs[b] == Abs(s).bufs[b]
  {
    assert Inv(boot) && Abs(boot) == View(boot.bufs, boot.disk);
    RunRefines(boot, steps);
    RunServes(boot, steps);
    forall b | 0 <= b < |s.bufs| && Enabled(s, Return(b)) ensures s.bufs[b] == Abs(s).bufs[b] {
      ReturnKeeps(s, b);
    }
  }

  lemma HeadIsThere<D>(s: State<D>)
    requires Inv(s) && s.queue != []
    ensures HeadThere(s)
  {
    assert NextIs(s.qnext, s.queue, 0) && s.queue[0] in s.queue;
    if |s.queue| > 1 { assert s.queue[1] in s.queue; }
  }

  lemma CanReturn<D>(s: State<D>, b: nat)
    requires Requested(s) && b in s.waiting && b !in s.queue
    ensures Enabled(s, Return(b))
  {
  }

  /** Nothing gets stuck: while a request is queued the device is at work or its interrupt is due,
      and a waiting call whose request has left the queue can return. */
  lemma DriverProgress<D>(boot: State<D>, steps: seq<Step<D>>, s: State<D>)
    requires Init(boot) && Runs(boot, steps) && s == Exec(boot, steps)
    ensures s.queue != [] ==> Enabled(s, Complete) || Enabled(s, Interrupt)
    ensures forall b :: b in s.waiting && b !in s.queue ==> Enabled(s, Return(b))
  {
    RunRefines(boot, steps);
    if s.queue != [] { HeadIsThere(s); }
    forall b | b in s.waiting && b !in s.queue ensures Enabled(s, Return(b)) { CanReturn(s, b); }
  }
}
