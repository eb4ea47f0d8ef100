/** The log, the buffer cache and the disk as one step machine: any number of file system
    operations and readers interleave, commit() advances one disk write at a time, and the
    machine may crash between any two steps, including steps of recovery. Blocks are values
    of any type B; the disk is seen as header, data slots and home blocks (LogView relates
    this view to the disk of Log). */
module LogMachine {
  import opened Options
  import opened Words
  import opened Log
  import opened LogCode

  // ---------------------------------------------------------------- history

  /** What the operations did, in order. Logged carries the whole block a log_write hands over. */
  datatype Event<B> = BeginOp(op: nat) | Logged(op: nat, bno: word, data: B) | EndOp(op: nat)

  type Image<B> = map<word, B>

  ghost function Effect<B>(image: Image<B>, e: Event<B>): (r: Image<B>) {
    if e.Logged? then image[e.bno := e.data] else image
  }

  /** The home blocks after replaying a history. */
  ghost function Replay<B>(base: Image<B>, evs: seq<Event<B>>): (image: Image<B>) {
    if evs == [] then base else Effect(Replay(base, evs[..|evs| - 1]), evs[|evs| - 1])
  }

  ghost function OpenAfter<B>(open: set<nat>, e: Event<B>): (ops: set<nat>) {
    match e
    case BeginOp(op) => open + {op}
    case Logged(_, _, _) => open
    case EndOp(op) => open - {op}
  }

  /** The operations begun and not yet ended. */
  ghost function OpenOps<B>(evs: seq<Event<B>>): (ops: set<nat>) {
    if evs == [] then {} else OpenAfter(OpenOps(evs[..|evs| - 1]), evs[|evs| - 1])
  }

  ghost predicate Seen<B>(evs: seq<Event<B>>, op: nat) {
    exists i :: 0 <= i < |evs| && evs[i].op == op
  }

  /** Operations log only between their begin and their end, and begin once. */
  ghost predicate WellFormed<B>(evs: seq<Event<B>>) {
    evs == [] || (WellFormed(evs[..|evs| - 1]) && MayFollow(evs[..|evs| - 1], evs[|evs| - 1]))
  }

  ghost predicate MayFollow<B>(evs: seq<Event<B>>, e: Event<B>) {
    if e.BeginOp? then !Seen(evs, e.op) else e.op in OpenOps(evs)
  }

  lemma {:induction false} WellFormedPrefix<B>(evs: seq<Event<B>>, n: nat)
    requires WellFormed(evs) && n <= |evs|
    ensures WellFormed(evs[..n])
  {
    if n == |evs| {
      assert evs[..n] == evs;
    } else {
      assert evs[..|evs| - 1][..n] == evs[..n];
      WellFormedPrefix(evs[..|evs| - 1], n);
    }
  }

  lemma HistoryGrows<B>(base: Image<B>, evs: seq<Event<B>>, e: Event<B>)
    ensures OpenOps(evs + [e]) == OpenAfter(OpenOps(evs), e)
    ensures Replay(base, evs + [e]) == Effect(Replay(base, evs), e)
    ensures WellFormed(evs) && MayFollow(evs, e) ==> WellFormed(evs + [e])
  {
    assert (evs + [e])[..|evs|] == evs;
  }

  lemma {:induction false} ClosedStaysClosed<B>(evs: seq<Event<B>>, op: nat, c: nat)
    requires WellFormed(evs) && c <= |evs|
    requires Seen(evs[..c], op) && op !in OpenOps(evs[..c])
    ensures op !in OpenOps(evs) && Seen(evs, op)
    ensures forall j :: c <= j < |evs| ==> evs[j].op != op
  {
    if c == |evs| {
      assert evs[..c] == evs;
    } else {
      var init := evs[..|evs| - 1];
      assert init[..c] == evs[..c];
      ClosedStaysClosed(init, op, c);
      var i :| 0 <= i < |init| && init[i].op == op;
      assert evs[i].op == op;
      forall j | c <= j < |evs| ensures evs[j].op != op {
        if j < |init| { assert evs[j] == init[j]; }
      }
    }
  }

  /** A point where no operation is open never falls inside an operation: whatever an
      operation did before such a point, it did all of it before. */
  lemma OperationsAreWhole<B>(evs: seq<Event<B>>, c: nat, i: nat, j: nat)
    requires WellFormed(evs) && c <= |evs| && OpenOps(evs[..c]) == {}
    requires i < c && j < |evs| && evs[i].op == evs[j].op
    ensures j < c
  {
    assert evs[..c][i].op == evs[j].op;
    ClosedStaysClosed(evs, evs[j].op, c);
  }

  // ---------------------------------------------------------------- states

  /** The log's view of the disk: the entries of the header block, the data slots after it,
      and the home blocks. */
  datatype Disk<B> = Disk(head: seq<word>, slots: seq<B>, home: Image<B>)

  /** Slot t of the log is block start + 1 + t of the disk. Past the region that is a home block:
      neither write_log nor install_trans checks. */
  predicate Past<B>(disk: Disk<B>, t: nat) { t >= |disk.slots| }

  ghost predicate SlotThere<B>(g: Geometry, disk: Disk<B>, t: nat) {
    Past(disk, t) ==> g.start + 1 + t < WORD_LIMIT && SlotBlock(g, t) in disk.home
  }

  function SlotBlock(g: Geometry, t: nat): word
    requires g.start + 1 + t < WORD_LIMIT
  {
    g.start + 1 + t
  }

  ghost function GetSlot<B>(g: Geometry, disk: Disk<B>, t: nat): B
    requires SlotThere(g, disk, t)
  {
    if Past(disk, t) then disk.home[SlotBlock(g, t)] else disk.slots[t]
  }

  ghost function PutSlot<B>(g: Geometry, disk: Disk<B>, t: nat, data: B): Disk<B>
    requires SlotThere(g, disk, t)
  {
    if Past(disk, t) then disk.(home := disk.home[SlotBlock(g, t) := data]) else disk.(slots := disk.slots[t := data])
  }

  /** The buffers after slot t has been written: a home block has its own buffer. */
  ghost function SlotCache<B>(g: Geometry, disk: Disk<B>, cache: map<word, Buf<B>>, t: nat, data: B): map<word, Buf<B>>
    requires SlotThere(g, disk, t)
  {
    if Past(disk, t) then cache[SlotBlock(g, t) := Buf(data, false, None, false)] else cache
  }

  /** A cached home block. `touched` marks data changed since the last log_write. */
  datatype Buf<B> = Buf(data: B, dirty: bool, holder: Option<nat>, touched: bool)

  /** An operation between begin_op and end_op: the distinct blocks it has logged, and the
      block for which it has passed log_write's unlocked size test, if any. */
  datatype OpState = OpState(id: nat, spent: set<word>, checked: Option<word>)

  datatype PC =
    | Running
    | WriteLog(t: nat) | WriteHead | Install(t: nat) | EraseHead | Reopen
    | RecInstall(t: nat) | RecErase
  {
    predicate Committing() { WriteLog? || WriteHead? || Install? || EraseHead? || Reopen? }
    predicate Recovering() { RecInstall? || RecErase? }
  }

  /** History variables: what was done, the points at which it became durable, and the home
      blocks that the whole history and its durable part amount to. */
  datatype History<B> = History(events: seq<Event<B>>, commits: seq<nat>, image: Image<B>, durable: Image<B>)

  /** One more event. */
  ghost function Record<B>(h: History<B>, e: Event<B>): History<B> {
    h.(events := h.events + [e], image := Effect(h.image, e))
  }

  /** Everything so far becomes durable. */
  ghost function Harden<B>(h: History<B>): History<B> {
    h.(commits := h.commits + [|h.events|], durable := h.image)
  }

  /** The length of the durable part of the history. */
  ghost function Durable<B>(h: History<B>): (n: nat)
    ensures n <= |h.events|
  {
    if h.commits != [] && h.commits[|h.commits| - 1] <= |h.events| then h.commits[|h.commits| - 1] else 0
  }

  /** A crash loses what is not durable. */
  ghost function Lose<B>(h: History<B>): History<B> {
    h.(events := h.events[..Durable(h)], image := h.durable)
  }

  datatype State<B> = State(
    disk: Disk<B>, cache: map<word, Buf<B>>,
    lh: seq<word>, outstanding: nat, committing: bool, ops: seq<OpState>, pc: PC,
    hist: History<B>)

  ghost predicate Active(ops: seq<OpState>, id: nat) {
    exists k :: 0 <= k < |ops| && ops[k].id == id
  }

  /** recover_from_log starts: the header found on the disk becomes the in-memory one. */
  ghost function Boot<B>(disk: Disk<B>, hist: History<B>): State<B> {
    State(disk, map[], disk.head, 0, false, [], if disk.head == [] then RecErase else RecInstall(0), hist)
  }

  datatype Step<B> =
    | Begin(op: nat)
    | Bread(id: nat, b: word)
    | Modify(k: nat, b: word, data: B)
    | LogCheck(k: nat, b: word)
    | LogAppend(k: nat, b: word)
    | Brelse(id: nat, b: word)
    | Evict(b: word)
    | End(k: nat)
    | Commit
    | Recover
    | Crash

  ghost predicate HeldBy<B>(s: State<B>, k: nat, b: word) {
    k < |s.ops| && b in s.cache && s.cache[b].holder == Some(s.ops[k].id)
  }

  ghost predicate Enabled<B>(g: Geometry, s: State<B>, step: Step<B>) {
    match step
    case Begin(op) => s.pc.Running? && !s.committing && Admits(|s.lh|, s.outstanding) && !Seen(s.hist.events, op)
    case Bread(id, b) => !s.pc.Recovering() && b in s.disk.home && (b in s.cache ==> s.cache[b].holder.None?)
    case Modify(k, b, data) => HeldBy(s, k, b)
    case LogCheck(k, b) => HeldBy(s, k, b) && !TooBig(g, |s.lh|) && s.outstanding >= 1
    case LogAppend(k, b) =>
      HeldBy(s, k, b) && s.ops[k].checked == Some(b) && |s.ops[k].spent + {b}| <= MAXOPBLOCKS
    case Brelse(id, b) => b in s.cache && s.cache[b].holder == Some(id) && !s.cache[b].touched
    case Evict(b) => b in s.cache && s.cache[b].holder.None? && !s.cache[b].dirty
    case End(k) =>
      && k < |s.ops| && s.ops[k].checked.None? && s.outstanding > 0 && !s.committing
      && forall b :: b in s.cache ==> s.cache[b].holder != Some(s.ops[k].id)
    case Commit => s.pc.Committing() && CommitReady(g, s)
    case Recover => s.pc.Recovering() && RecoverReady(g, s)
    case Crash => true
  }

  ghost predicate Free<B>(cache: map<word, Buf<B>>, b: word) { b in cache ==> cache[b].holder.None? }

  /** The buffers commit() needs next are not held by a reader, nor are they one and the same. */
  ghost predicate CommitReady<B>(g: Geometry, s: State<B>) {
    s.pc.WriteLog? || s.pc.Install? ==>
      && s.pc.t < |s.lh| && s.lh[s.pc.t] in s.disk.home && Free(s.cache, s.lh[s.pc.t]) && SlotThere(g, s.disk, s.pc.t)
      && (Past(s.disk, s.pc.t) ==> SlotBlock(g, s.pc.t) != s.lh[s.pc.t] && Free(s.cache, SlotBlock(g, s.pc.t)))
  }

  ghost predicate RecoverReady<B>(g: Geometry, s: State<B>) {
    s.pc.RecInstall? ==>
      && s.pc.t < |s.lh| && s.lh[s.pc.t] in s.disk.home && SlotThere(g, s.disk, s.pc.t)
      && (Past(s.disk, s.pc.t) ==> SlotBlock(g, s.pc.t) != s.lh[s.pc.t])
  }

  ghost function Do<B>(g: Geometry, s: State<B>, step: Step<B>): (r: State<B>)
    requires Enabled(g, s, step)
  {
    match step
    case Begin(op) =>
      s.(outstanding := s.outstanding + 1, ops := s.ops + [OpState(op, {}, None)], hist := Record(s.hist, BeginOp(op)))
    case Bread(id, b) =>
      var buf := if b in s.cache then s.cache[b].(holder := Some(id)) else Buf(s.disk.home[b], false, Some(id), false);
      s.(cache := s.cache[b := buf])
    case Modify(k, b, data) =>
      s.(cache := s.cache[b := s.cache[b].(data := data, touched := true)])
    case LogCheck(k, b) =>
      s.(ops := s.ops[k := s.ops[k].(checked := Some(b))])
    case LogAppend(k, b) =>
      s.(lh := Absorb(s.lh, b),
         cache := s.cache[b := s.cache[b].(dirty := true, touched := false)],
         ops := s.ops[k := OpState(s.ops[k].id, s.ops[k].spent + {b}, None)],
         hist := Record(s.hist, Logged(s.ops[k].id, b, s.cache[b].data)))
    case Brelse(id, b) => s.(cache := s.cache[b := s.cache[b].(holder := None)])
    case Evict(b) => s.(cache := s.cache - {b})
    case End(k) => DoEnd(s, k)
    case Commit => DoCommit(g, s)
    case Recover => DoRecover(g, s)
    case Crash => Boot(s.disk, Lose(s.hist))
  }

  /** end_op: the last operation out starts commit(); an empty transaction commits at once. */
  ghost function DoEnd<B>(s: State<B>, k: nat): State<B>
    requires k < |s.ops| && s.outstanding > 0
  {
    var hist := Record(s.hist, EndOp(s.ops[k].id));
    var r := s.(outstanding := s.outstanding - 1, ops := s.ops[..k] + s.ops[k + 1..], hist := hist);
    if s.outstanding > 1 then r
    else if s.lh == [] then r.(committing := true, pc := Reopen, hist := Harden(hist))
    else r.(committing := true, pc := WriteLog(0))
  }

  /** One disk write of commit(), or the reopening of the log. */
  ghost function DoCommit<B>(g: Geometry, s: State<B>): State<B>
    requires s.pc.Committing() && CommitReady(g, s)
  {
    match s.pc
    case WriteLog(t) =>
      var data := if s.lh[t] in s.cache then s.cache[s.lh[t]].data else s.disk.home[s.lh[t]];
      s.(disk := PutSlot(g, s.disk, t, data), cache := SlotCache(g, s.disk, s.cache, t, data),
         pc := if t + 1 < |s.lh| then WriteLog(t + 1) else WriteHead)
    case WriteHead =>
      s.(disk := s.disk.(head := s.lh), hist := Harden(s.hist), pc := if s.lh == [] then EraseHead else Install(0))
    case Install(t) =>
      var data := GetSlot(g, s.disk, t);
      s.(disk := s.disk.(home := s.disk.home[s.lh[t] := data]), cache := s.cache[s.lh[t] := Buf(data, false, None, false)],
         pc := if t + 1 < |s.lh| then Install(t + 1) else EraseHead)
    case EraseHead => s.(disk := s.disk.(head := []), lh := [], pc := Reopen)
    case Reopen => s.(committing := false, pc := Running)
  }

  /** One disk write of recover_from_log(). */
  ghost function DoRecover<B>(g: Geometry, s: State<B>): State<B>
    requires s.pc.Recovering() && RecoverReady(g, s)
  {
    match s.pc
    case RecInstall(t) =>
      s.(disk := s.disk.(home := s.disk.home[s.lh[t] := GetSlot(g, s.disk, t)]),
         pc := if t + 1 < |s.lh| then RecInstall(t + 1) else RecErase)
    case RecErase => s.(disk := s.disk.(head := []), lh := [], pc := Running)
  }
}
