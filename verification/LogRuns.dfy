/** Commit, crash and recovery steps keep the invariant of LogSafety; the theorems about
    whole runs of the log machine. */
module LogRuns {
  import opened Options
  import opened Words
  import opened Log
  import opened LogCode
  import opened LogMachine
  import opened LogSafety

  // ---------------------------------------------------------------- commit steps

  /** With no operation active, a cached block is what was last logged for it. */
  lemma QuietBuffer<B>(pinned: seq<word>, home: Image<B>, image: Image<B>, cache: map<word, Buf<B>>, b: word)
    requires CacheInv(pinned, [], home, image, cache) && b in cache
    ensures !cache[b].touched && b in image && cache[b].data == image[b]
  {
    assert BufInv(pinned, [], home, image, b, cache[b]);
    assert forall id :: !Active([], id);
  }

  lemma WriteLogKeepsDisk<B>(lh: seq<word>, t: nat, disk: Disk<B>, image: Image<B>, durable: Image<B>)
    requires DiskInv(lh, WriteLog(t), disk, image, durable)
    ensures DiskInv(lh, if t + 1 < |lh| then WriteLog(t + 1) else WriteHead,
                    disk.(slots := disk.slots[t := image[lh[t]]]), image, durable)
  {
  }

  lemma WriteHeadKeepsDisk<B>(lh: seq<word>, disk: Disk<B>, image: Image<B>, durable: Image<B>)
    requires DiskInv(lh, WriteHead, disk, image, durable)
    ensures DiskInv(lh, Install(0), disk.(head := lh), image, image)
  {
  }

  ghost function NextInstall(pc: PC, n: nat): PC
    requires pc.Install? || pc.RecInstall?
  {
    if pc.Install? then (if pc.t + 1 < n then Install(pc.t + 1) else EraseHead)
    else if pc.t + 1 < n then RecInstall(pc.t + 1) else RecErase
  }

  lemma InstallKeepsDisk<B>(lh: seq<word>, pc: PC, disk: Disk<B>, image: Image<B>, durable: Image<B>)
    requires DiskInv(lh, pc, disk, image, durable) && (pc.Install? || pc.RecInstall?)
    ensures DiskInv(lh, NextInstall(pc, |lh|), disk.(home := disk.home[lh[pc.t] := disk.slots[pc.t]]), image, durable)
    ensures disk.slots[pc.t] == image[lh[pc.t]]
  {
    assert disk.home[lh[pc.t] := disk.slots[pc.t]].Keys == disk.home.Keys;
  }

  lemma InstallKeepsCache<B>(lh: seq<word>, t: nat, home: Image<B>, image: Image<B>, cache: map<word, Buf<B>>)
    requires t < |lh| && Distinct(lh) && CacheInv(lh[t..], [], home, image, cache) && lh[t] in home
    ensures CacheInv(lh[t + 1..], [], home[lh[t] := image[lh[t]]], image, cache[lh[t] := Buf(image[lh[t]], false, None, false)])
  {
    var home' := home[lh[t] := image[lh[t]]];
    var cache' := cache[lh[t] := Buf(image[lh[t]], false, None, false)];
    assert lh[t..] == [lh[t]] + lh[t + 1..];
    DistinctAt(lh, t);
    forall b | b in cache' ensures BufInv(lh[t + 1..], [], home', image, b, cache'[b]) {
      if b != lh[t] { assert BufInv(lh[t..], [], home, image, b, cache[b]); }
    }
    forall b | b in lh[t + 1..] ensures b in cache' && cache'[b].dirty {
      var i :| 0 <= i < |lh| - t - 1 && lh[t + 1..][i] == b;
      assert lh[t] != lh[t + 1 + i];
    }
  }

  lemma EraseKeepsDisk<B>(lh: seq<word>, pc: PC, disk: Disk<B>, image: Image<B>, durable: Image<B>)
    requires DiskInv(lh, pc, disk, image, durable) && (pc.EraseHead? || pc.RecErase?)
    ensures DiskInv([], if pc.EraseHead? then Reopen else Running, disk.(head := []), image, durable)
    ensures forall b :: b in disk.home ==> disk.home[b] == image[b]
  {
  }

  lemma WriteLogKeepsData<B>(s: State<B>, r: State<B>)
    requires DataInv(s) && s.ops == [] && s.pc.WriteLog? && s.lh[s.pc.t] in s.cache
    requires r == s.(disk := s.disk.(slots := s.disk.slots[s.pc.t := s.cache[s.lh[s.pc.t]].data]),
                     pc := if s.pc.t + 1 < |s.lh| then WriteLog(s.pc.t + 1) else WriteHead)
    ensures DataInv(r)
  {
    QuietBuffer(PinnedBlocks(s.lh, s.pc), s.disk.home, s.hist.image, s.cache, s.lh[s.pc.t]);
    WriteLogKeepsDisk(s.lh, s.pc.t, s.disk, s.hist.image, s.hist.durable);
  }

  lemma WriteHeadKeepsData<B>(s: State<B>, r: State<B>)
    requires DataInv(s) && s.ops == [] && s.pc.WriteHead?
    requires r == s.(disk := s.disk.(head := s.lh), hist := Harden(s.hist), pc := Install(0))
    ensures DataInv(r)
  {
    WriteHeadKeepsDisk(s.lh, s.disk, s.hist.image, s.hist.durable);
  }

  lemma InstallKeepsData<B>(s: State<B>, r: State<B>)
    requires DataInv(s) && s.ops == [] && s.pc.Install?
    requires r == s.(disk := s.disk.(home := s.disk.home[s.lh[s.pc.t] := s.disk.slots[s.pc.t]]),
                     pc := NextInstall(s.pc, |s.lh|),
                     cache := s.cache[s.lh[s.pc.t] := Buf(s.disk.slots[s.pc.t], false, None, false)])
    ensures DataInv(r)
  {
    InstallKeepsDisk(s.lh, s.pc, s.disk, s.hist.image, s.hist.durable);
    InstallKeepsCache(s.lh, s.pc.t, s.disk.home, s.hist.image, s.cache);
  }

  lemma EraseKeepsData<B>(s: State<B>, r: State<B>)
    requires DataInv(s) && s.ops == [] && s.pc.EraseHead?
    requires r == s.(disk := s.disk.(head := []), lh := [], pc := Reopen)
    ensures DataInv(r)
  {
    EraseKeepsDisk(s.lh, s.pc, s.disk, s.hist.image, s.hist.durable);
  }

  lemma ReopenKeepsData<B>(s: State<B>, r: State<B>)
    requires DataInv(s) && s.pc.Reopen? && r == s.(committing := false, pc := Running)
    ensures DataInv(r)
  {
  }

  /** The block that write_log copies next is cached. */
  lemma NextIsCached<B>(s: State<B>)
    requires DataInv(s) && s.pc.WriteLog?
    ensures s.pc.t < |s.lh| && s.lh[s.pc.t] in s.cache
  {
    assert s.lh[s.pc.t] in PinnedBlocks(s.lh, s.pc);
  }

  lemma CommitKeepsData<B>(g: Geometry, s: State<B>, r: State<B>)
    requires DataInv(s) && s.ops == [] && s.pc.Committing() && CommitReady(g, s) && r == DoCommit(g, s)
    ensures DataInv(r)
  {
    match s.pc
    case WriteLog(t) =>
      NextIsCached(s);
      WriteLogKeepsData(s, r);
    case WriteHead => WriteHeadKeepsData(s, r);
    case Install(t) => InstallKeepsData(s, r);
    case EraseHead => EraseKeepsData(s, r);
    case Reopen => ReopenKeepsData(s, r);
  }

  lemma CommitKeepsInv<B>(g: Geometry, base: Image<B>, s: State<B>)
    requires Inv(base, s) && s.pc.Committing() && CommitReady(g, s)
    ensures Inv(base, DoCommit(g, s))
  {
    CommitKeepsData(g, s, DoCommit(g, s));
    if s.pc.WriteHead? {
      assert forall id :: !Active(s.ops, id);
      HardenKeepsHist(base, s.hist);
    }
  }

  lemma RecoverKeepsInv<B>(g: Geometry, base: Image<B>, s: State<B>)
    requires Inv(base, s) && s.pc.Recovering() && RecoverReady(g, s)
    ensures Inv(base, DoRecover(g, s))
  {
    match s.pc
    case RecInstall(t) => InstallKeepsDisk(s.lh, s.pc, s.disk, s.hist.image, s.hist.durable);
    case RecErase => EraseKeepsDisk(s.lh, s.pc, s.disk, s.hist.image, s.hist.durable);
  }

  lemma CrashKeepsInv<B>(base: Image<B>, s: State<B>)
    requires Inv(base, s)
    ensures Inv(base, Boot(s.disk, Lose(s.hist)))
  {
    var r := Boot(s.disk, Lose(s.hist));
    LoseKeepsHist(base, s.hist);
    assert forall id :: !Active(r.ops, id);
    CrashKeepsDisk(s.lh, s.pc, s.disk, s.hist.image, s.hist.durable);
  }

  lemma CrashKeepsDisk<B>(lh: seq<word>, pc: PC, disk: Disk<B>, image: Image<B>, durable: Image<B>)
    requires DiskInv(lh, pc, disk, image, durable)
    ensures DiskInv(disk.head, if disk.head == [] then RecErase else RecInstall(0), disk, durable, durable)
  {
  }

  // ---------------------------------------------------------------- runs

  /** The header fits the region. */
  ghost predicate Fitting<B>(s: State<B>) { |s.lh| <= |s.disk.slots| }

  /** Every step of the machine, in every interleaving, keeps the invariant as long as the header
      fits the region. */
  lemma StepKeepsInv<B>(g: Geometry, base: Image<B>, s: State<B>, step: Step<B>)
    requires Inv(base, s) && Enabled(g, s, step) && Fitting(Do(g, s, step))
    ensures Inv(base, Do(g, s, step))
  {
    var r := Do(g, s, step);
    match step
    case Begin(op) => BeginKeepsInv(base, s, op, r);
    case Bread(id, b) => BreadKeepsInv(base, s, id, b, r);
    case Modify(k, b, data) => ModifyKeepsInv(base, s, k, b, data, r);
    case LogCheck(k, b) => LogCheckKeepsInv(base, s, k, b, r);
    case LogAppend(k, b) => LogAppendKeepsInv(base, s, k, b, r);
    case Brelse(id, b) => BrelseKeepsInv(base, s, b, r);
    case Evict(b) => EvictKeepsInv(base, s, b, r);
    case End(k) => EndKeepsInv(base, s, k);
    case Commit => CommitKeepsInv(g, base, s);
    case Recover => RecoverKeepsInv(g, base, s);
    case Crash => CrashKeepsInv(base, s);
  }

  /** With a slot for every admitted block the header always fits. */
  lemma RoomyStepFits<B>(g: Geometry, base: Image<B>, s: State<B>, step: Step<B>)
    requires Inv(base, s) && Enabled(g, s, step) && |s.disk.slots| >= LOGSIZE
    ensures Fitting(Do(g, s, step))
  {
    SlotsStay(g, s, step);
    if step.LogAppend? {
      assert s.pc.Running?;
      LogAppendKeepsBudget(s, step.k, step.b, Do(g, s, step));
    }
  }

  /** No step changes which blocks there are. */
  lemma SlotsStay<B>(g: Geometry, s: State<B>, step: Step<B>)
    requires Enabled(g, s, step)
    ensures var r := Do(g, s, step); |r.disk.slots| == |s.disk.slots| && r.disk.home.Keys == s.disk.home.Keys
  {
  }

  /** The home blocks recovery restores from a disk. */
  ghost function Restore<B>(disk: Disk<B>, n: nat): (home: Image<B>)
    requires n <= |disk.head| <= |disk.slots|
  {
    if n == 0 then disk.home else Restore(disk, n - 1)[disk.head[n - 1] := disk.slots[n - 1]]
  }

  /** A disk laid out as g says, with a header that fits the slots and names distinct home blocks. */
  ghost predicate Bootable<B>(g: Geometry, disk: Disk<B>) {
    && g.Valid() && |disk.slots| == g.size - 1 && (forall b: word :: b in disk.home <==> g.Home(b))
    && |disk.head| <= LOGSIZE && |disk.head| <= |disk.slots| && Distinct(disk.head)
    && forall i :: 0 <= i < |disk.head| ==> disk.head[i] in disk.home
  }

  ghost function Init<B>(disk: Disk<B>): State<B>
    requires |disk.head| <= |disk.slots|
  {
    var base := Restore(disk, |disk.head|);
    Boot(disk, History([], [0], base, base))
  }

  /** The steps can be taken one after the other from s. */
  ghost predicate Runs<B>(g: Geometry, s: State<B>, steps: seq<Step<B>>)
    decreases |steps|
  {
    steps == [] || (Enabled(g, s, steps[0]) && Runs(g, Do(g, s, steps[0]), steps[1..]))
  }

  ghost function Exec<B>(g: Geometry, s: State<B>, steps: seq<Step<B>>): State<B>
    requires Runs(g, s, steps)
    decreases |steps|
  {
    if steps == [] then s else Exec(g, Do(g, s, steps[0]), steps[1..])
  }

  /** In every state of the run the header fits the region. */
  ghost predicate Within<B>(g: Geometry, s: State<B>, steps: seq<Step<B>>)
    requires Runs(g, s, steps)
    decreases |steps|
  {
    Fitting(s) && (steps == [] || Within(g, Do(g, s, steps[0]), steps[1..]))
  }

  lemma {:induction false} RestoreAt<B>(disk: Disk<B>, n: nat)
    requires |disk.head| <= |disk.slots| && Distinct(disk.head) && (forall i :: 0 <= i < |disk.head| ==> disk.head[i] in disk.home)
    requires n <= |disk.head|
    ensures Restore(disk, n).Keys == disk.home.Keys
    ensures forall b :: b in disk.home && b !in disk.head[..n] ==> Restore(disk, n)[b] == disk.home[b]
    ensures forall i :: 0 <= i < n ==> Restore(disk, n)[disk.head[i]] == disk.slots[i]
  {
    if n > 0 {
      RestoreAt(disk, n - 1);
      assert disk.head[..n] == disk.head[..n - 1] + [disk.head[n - 1]];
      DistinctAt(disk.head, n - 1);
      var before := Restore(disk, n - 1);
      forall i | 0 <= i < n ensures Restore(disk, n)[disk.head[i]] == disk.slots[i] {
        if i < n - 1 { assert before[disk.head[i]] == disk.slots[i]; }
      }
    }
  }

  lemma InitInv<B>(g: Geometry, disk: Disk<B>)
    requires Bootable(g, disk)
    ensures Inv(Restore(disk, |disk.head|), Init(disk))
  {
    var s := Init(disk);
    RestoreAt(disk, |disk.head|);
    assert disk.head[..|disk.head|] == disk.head;
    assert forall id :: !Active(s.ops, id);
  }

  lemma {:induction false} RunInv<B>(g: Geometry, base: Image<B>, s: State<B>, steps: seq<Step<B>>)
    requires Inv(base, s) && Runs(g, s, steps) && (Within(g, s, steps) || |s.disk.slots| >= LOGSIZE)
    ensures Inv(base, Exec(g, s, steps)) && Within(g, s, steps)
    ensures |Exec(g, s, steps).disk.slots| == |s.disk.slots| && Exec(g, s, steps).disk.home.Keys == s.disk.home.Keys
    decreases |steps|
  {
    if steps != [] {
      SlotsStay(g, s, steps[0]);
      if |s.disk.slots| >= LOGSIZE { RoomyStepFits(g, base, s, steps[0]); }
      StepKeepsInv(g, base, s, steps[0]);
      RunInv(g, base, Do(g, s, steps[0]), steps[1..]);
    }
  }

  /** A run from boot in a region of more than LOGSIZE blocks, or in any region as long as the
      header fits it. */
  ghost predicate RegionRun<B>(g: Geometry, disk: Disk<B>, steps: seq<Step<B>>) {
    && Bootable(g, disk) && Runs(g, Init(disk), steps)
    && (g.size > LOGSIZE || Within(g, Init(disk), steps))
  }

  lemma AfterRun<B>(g: Geometry, disk: Disk<B>, steps: seq<Step<B>>, s: State<B>)
    requires RegionRun(g, disk, steps) && s == Exec(g, Init(disk), steps)
    ensures Inv(Restore(disk, |disk.head|), s) && |s.disk.slots| == |disk.slots| && s.disk.home.Keys == disk.home.Keys
  {
    InitInv(g, disk);
    RunInv(g, Restore(disk, |disk.head|), Init(disk), steps);
  }

  // ---------------------------------------------------------------- the theorems

  /** What recovery restores from the disk is the replay of the durable part of the history. */
  ghost predicate RestoresDurable<B>(base: Image<B>, s: State<B>) {
    |s.disk.head| <= |s.disk.slots| && Restore(s.disk, |s.disk.head|) == Replay(base, s.hist.events[..Durable(s.hist)])
  }

  /** Whole-operation atomicity. After any run, with any crashes in it, what recovery restores
      from the disk is the replay of the durable part of the history; that part and every
      earlier durable part consist of whole operations; and with no operation active and no
      commit in progress everything done so far is durable. */
  lemma WholeOperationAtomicity<B>(g: Geometry, disk: Disk<B>, steps: seq<Step<B>>)
    requires RegionRun(g, disk, steps)
    ensures var s := Exec(g, Init(disk), steps);
      && Bootable(g, s.disk) && RestoresDurable(Restore(disk, |disk.head|), s)
      && (forall c, i, j :: c in s.hist.commits && 0 <= i < c && SameOperation(s.hist.events, i, j) ==> j < c)
      && (s.outstanding == 0 && !s.committing ==> Durable(s.hist) == |s.hist.events|)
  {
    var s := Exec(g, Init(disk), steps);
    AfterRun(g, disk, steps, s);
    RestoredIsDurable(s);
    forall c, i, j | c in s.hist.commits && 0 <= i < c && SameOperation(s.hist.events, i, j) ensures j < c {
      var n :| 0 <= n < |s.hist.commits| && s.hist.commits[n] == c;
      assert Quiet(s.hist.events, s.hist.commits[n]);
      OperationsAreWhole(s.hist.events, c, i, j);
    }
  }

  /** Events i and j belong to one operation. */
  ghost predicate SameOperation<B>(evs: seq<Event<B>>, i: int, j: int) {
    0 <= i < |evs| && 0 <= j < |evs| && evs[i].op == evs[j].op
  }

  lemma RestoredIsDurable<B>(s: State<B>)
    requires DiskInv(s.lh, s.pc, s.disk, s.hist.image, s.hist.durable)
    ensures |s.disk.head| <= |s.disk.slots| && Restore(s.disk, |s.disk.head|) == s.hist.durable
  {
    var home := Restore(s.disk, |s.disk.head|);
    RestoreAt(s.disk, |s.disk.head|);
    assert s.disk.head[..|s.disk.head|] == s.disk.head;
    forall b | b in home ensures home[b] == s.hist.durable[b] {
      if b in s.disk.head {
        var i :| 0 <= i < |s.disk.head| && s.disk.head[i] == b;
        assert home[s.disk.head[i]] == s.disk.slots[i];
      }
    }
  }

  /** Cache agreement. Outside recovery: bread of a block nobody is changing yields what was
      last logged for it, else the disk's contents; an idle clean buffer equals the disk; the
      logged blocks stay cached and dirty until installed; and until the header write every
      home block on the disk is as the last durable point left it. */
  lemma CacheAgreement<B>(g: Geometry, disk: Disk<B>, steps: seq<Step<B>>)
    requires RegionRun(g, disk, steps)
    ensures var s := Exec(g, Init(disk), steps); var base := Restore(disk, |disk.head|);
      !s.pc.Recovering() ==>
      && s.disk.home.Keys == disk.home.Keys == Replay(base, s.hist.events).Keys
         == Replay(base, s.hist.events[..Durable(s.hist)]).Keys
      && (forall b :: b in disk.home && b !in s.cache ==> s.disk.home[b] == Replay(base, s.hist.events)[b])
      && (forall b :: b in s.cache ==> b in disk.home && (s.cache[b].holder.None? ==>
          && s.cache[b].data == Replay(base, s.hist.events)[b]
          && (!s.cache[b].dirty ==> s.cache[b].data == s.disk.home[b])))
      && (s.pc.Running? ==> forall b :: b in s.lh ==> b in s.cache && s.cache[b].dirty)
      && (s.pc.Running? || s.pc.WriteLog? || s.pc.WriteHead? ==>
          s.disk.home == Replay(base, s.hist.events[..Durable(s.hist)]))
  {
    var s := Exec(g, Init(disk), steps);
    AfterRun(g, disk, steps, s);
    if !s.pc.Recovering() {
      forall b | b in s.cache ensures b in s.disk.home && (s.cache[b].holder.None? ==>
          s.cache[b].data == s.hist.image[b] && (!s.cache[b].dirty ==> s.cache[b].data == s.disk.home[b])) {
        assert BufInv(PinnedBlocks(s.lh, s.pc), s.ops, s.disk.home, s.hist.image, b, s.cache[b]);
      }
      if s.pc.Running? { assert PinnedBlocks(s.lh, s.pc) == s.lh; }
    }
  }

  /** While a commit or a recovery is in progress no operation is active, end_op's panic
      cannot happen, and only the committer itself changes the header or the history. */
  lemma CommitIsExclusive<B>(g: Geometry, disk: Disk<B>, steps: seq<Step<B>>, s: State<B>, step: Step<B>)
    requires RegionRun(g, disk, steps) && s == Exec(g, Init(disk), steps) && Enabled(g, s, step)
    ensures s.ops != [] ==> !s.committing
    ensures s.committing ==> s.outstanding == 0
    ensures !s.pc.Running? && !step.Commit? && !step.Recover? && !step.Crash? ==>
      var r := Do(g, s, step); r.lh == s.lh && r.pc == s.pc && r.hist == s.hist && r.disk == s.disk
  {
    AfterRun(g, disk, steps, s);
  }

  /** commit and recovery are never stuck: the next disk write is enabled as soon as no reader
      holds the buffer it needs. */
  lemma CommitNeverStuck<B>(g: Geometry, disk: Disk<B>, steps: seq<Step<B>>, s: State<B>)
    requires RegionRun(g, disk, steps) && s == Exec(g, Init(disk), steps) && !s.pc.Running?
    requires forall b :: b in s.cache ==> s.cache[b].holder.None?
    ensures s.pc.Committing() ==> Enabled(g, s, Commit)
    ensures s.pc.Recovering() ==> Enabled(g, s, Recover)
  {
    AfterRun(g, disk, steps, s);
  }

  /** begin_op never waits for nobody: when it refuses a new operation, recovery or a commit is in
      progress, or an operation is active whose end_op will wake the caller; and what has been
      logged always has an active operation or the committer to commit it. */
  lemma BeginHasWaker<B>(g: Geometry, disk: Disk<B>, steps: seq<Step<B>>, s: State<B>, op: nat)
    requires RegionRun(g, disk, steps) && s == Exec(g, Init(disk), steps) && !Seen(s.hist.events, op)
    ensures !Enabled(g, s, Begin(op)) ==> s.pc.Recovering() || s.committing || s.outstanding > 0
    ensures s.lh != [] ==> s.pc.Recovering() || s.committing || s.outstanding > 0
  {
    AfterRun(g, disk, steps, s);
  }

  // ---------------------------------------------------------------- reservation

  /** begin_op's reservation. With a slot for every admitted block, log_write's size panic
      strikes exactly when the header is full, which means every active operation has logged
      its whole allowance; an operation with allowance left never panics, and its append
      stays within block[LOGSIZE]. */
  lemma ReservationHolds<B>(g: Geometry, disk: Disk<B>, steps: seq<Step<B>>, s: State<B>, k: nat)
    requires RegionRun(g, disk, steps) && s == Exec(g, Init(disk), steps) && g.size > LOGSIZE && k < |s.ops|
    ensures |s.lh| + Unspent(s.ops) <= LOGSIZE
    ensures TooBig(g, |s.lh|) <==> |s.lh| == LOGSIZE
    ensures TooBig(g, |s.lh|) ==> forall i :: 0 <= i < |s.ops| ==> |s.ops[i].spent| == MAXOPBLOCKS
    ensures |s.ops[k].spent| < MAXOPBLOCKS ==> !TooBig(g, |s.lh|)
    ensures forall b :: |s.ops[k].spent + {b}| <= MAXOPBLOCKS ==> |Absorb(s.lh, b)| <= LOGSIZE
  {
    AfterRun(g, disk, steps, s);
    UnspentBounds(s.ops);
    if TooBig(g, |s.lh|) { NothingUnspent(s.ops); }
    if |s.ops[k].spent| < MAXOPBLOCKS && |s.lh| == LOGSIZE { NothingUnspent(s.ops); }
    forall b | |s.ops[k].spent + {b}| <= MAXOPBLOCKS ensures |Absorb(s.lh, b)| <= LOGSIZE {
      SetPlusOne(s.ops[k].spent, b);
      assert SpentLogged(s.lh, s.ops[k]);
      if |s.lh| == LOGSIZE { NothingUnspent(s.ops); }
    }
  }

  lemma {:induction false} NothingUnspent(ops: seq<OpState>)
    requires (forall k :: 0 <= k < |ops| ==> |ops[k].spent| <= MAXOPBLOCKS) && Unspent(ops) <= 0
    ensures forall i :: 0 <= i < |ops| ==> |ops[i].spent| == MAXOPBLOCKS
  {
    if ops != [] {
      UnspentBounds(ops[..|ops| - 1]);
      NothingUnspent(ops[..|ops| - 1]);
      forall i | 0 <= i < |ops| ensures |ops[i].spent| == MAXOPBLOCKS {
        if i < |ops| - 1 { assert ops[..|ops| - 1][i] == ops[i]; }
      }
    }
  }
}
