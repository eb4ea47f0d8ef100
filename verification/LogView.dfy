/** The disk of LogMachine is a view of the disk of Log: every step of the machine is at most one
    of the block writes of Log, commit() performs CommitWrites in order whatever readers do in
    between, recovery performs RecoverWrites, and the two notions of recovery agree. */
module LogView {
  import opened Options
  import opened Words
  import opened Log
  import opened LogCode
  import opened LogMachine
  import opened LogSafety
  import opened LogRuns

  ghost predicate Readable(g: Geometry, d: seq<Block>) {
    g.Valid() && |d| == g.nblocks && HeadCount(d[g.start]) <= LOGSIZE
  }

  ghost function HomeOf(g: Geometry, d: seq<Block>): (home: Image<Block>)
    requires g.Valid() && |d| == g.nblocks
  {
    map b: word | b < g.nblocks && g.Home(b) :: d[b]
  }

  /** The header entries, the data slots and the home blocks of a disk. */
  ghost function ViewOf(g: Geometry, d: seq<Block>): (disk: Disk<Block>)
    requires Readable(g, d)
  {
    Disk(Head(d[g.start]), d[g.start + 1..g.start + g.size], HomeOf(g, d))
  }

  lemma ViewSlot(g: Geometry, d: seq<Block>, t: nat, x: Block)
    requires Readable(g, d) && t + 1 < g.size
    ensures var r := Put(d, Write(g.start + 1 + t, x));
      Readable(g, r) && ViewOf(g, r) == ViewOf(g, d).(slots := ViewOf(g, d).slots[t := x])
  {
    var r := Put(d, Write(g.start + 1 + t, x));
    assert HomeOf(g, r) == HomeOf(g, d);
    assert r[g.start + 1..g.start + g.size] == d[g.start + 1..g.start + g.size][t := x];
  }

  lemma ViewHead(g: Geometry, d: seq<Block>, h: Block)
    requires Readable(g, d) && HeadCount(h) <= LOGSIZE
    ensures var r := Put(d, Write(g.start, h)); Readable(g, r) && ViewOf(g, r) == ViewOf(g, d).(head := Head(h))
  {
    var r := Put(d, Write(g.start, h));
    assert HomeOf(g, r) == HomeOf(g, d);
    assert r[g.start + 1..g.start + g.size] == d[g.start + 1..g.start + g.size];
  }

  lemma ViewHome(g: Geometry, d: seq<Block>, b: word, x: Block)
    requires Readable(g, d) && g.Home(b)
    ensures var r := Put(d, Write(b, x));
      Readable(g, r) && ViewOf(g, r) == ViewOf(g, d).(home := ViewOf(g, d).home[b := x])
  {
    var r := Put(d, Write(b, x));
    assert HomeOf(g, r) == HomeOf(g, d)[b := x];
    assert r[g.start + 1..g.start + g.size] == d[g.start + 1..g.start + g.size];
  }

  lemma ApplyNext(d: seq<Block>, ws: seq<Write>, k: nat)
    requires k < |ws|
    ensures Apply(d, ws[..k + 1]) == Put(Apply(d, ws[..k]), ws[k])
  {
    assert ws[..k + 1][..k] == ws[..k];
  }

  // ---------------------------------------------------------------- every step

  /** Every step of the machine writes at most one block of the disk it is a view of. */
  lemma StepOnDisk(g: Geometry, base: Image<Block>, s: State<Block>, step: Step<Block>, d: seq<Block>)
    returns (ws: seq<Write>)
    requires Inv(base, s) && Enabled(g, s, step) && Readable(g, d) && s.disk == ViewOf(g, d)
    ensures |ws| <= 1 && Readable(g, Apply(d, ws)) && Do(g, s, step).disk == ViewOf(g, Apply(d, ws))
  {
    var w := Write(0, d[g.start]);
    if step.Commit? && !s.pc.Reopen? {
      w := CommitOnDisk(g, base, s, d);
    } else if step.Recover? {
      w := RecoverOnDisk(g, base, s, d);
    } else {
      assert Do(g, s, step).disk == s.disk;
      return [];
    }
    ws := [w];
    assert ws[..0] == [];
    assert Apply(d, ws) == Put(Apply(d, []), w);
  }

  lemma CommitOnDisk(g: Geometry, base: Image<Block>, s: State<Block>, d: seq<Block>) returns (w: Write)
    requires Inv(base, s) && s.pc.Committing() && !s.pc.Reopen? && CommitReady(g, s) && Readable(g, d) && s.disk == ViewOf(g, d)
    ensures Readable(g, Put(d, w)) && DoCommit(g, s).disk == ViewOf(g, Put(d, w))
  {
    match s.pc
    case WriteLog(t) =>
      CopiedIsLogged(base, s);
      w := Write(g.start + 1 + t, s.hist.image[s.lh[t]]);
      ViewSlot(g, d, t, s.hist.image[s.lh[t]]);
    case WriteHead =>
      w := Write(g.start, SetHead(d[g.start], s.lh));
      HeadRoundTrip(d[g.start], s.lh);
      ViewHead(g, d, SetHead(d[g.start], s.lh));
    case Install(t) =>
      w := Write(s.lh[t], s.disk.slots[t]);
      ViewHome(g, d, s.lh[t], s.disk.slots[t]);
    case EraseHead =>
      w := Write(g.start, SetHead(d[g.start], []));
      HeadRoundTrip(d[g.start], []);
      ViewHead(g, d, SetHead(d[g.start], []));
  }

  lemma RecoverOnDisk(g: Geometry, base: Image<Block>, s: State<Block>, d: seq<Block>) returns (w: Write)
    requires Inv(base, s) && s.pc.Recovering() && RecoverReady(g, s) && Readable(g, d) && s.disk == ViewOf(g, d)
    ensures Readable(g, Put(d, w)) && DoRecover(g, s).disk == ViewOf(g, Put(d, w))
  {
    match s.pc
    case RecInstall(t) =>
      w := Write(s.lh[t], s.disk.slots[t]);
      ViewHome(g, d, s.lh[t], s.disk.slots[t]);
    case RecErase =>
      w := Write(g.start, SetHead(d[g.start], []));
      HeadRoundTrip(d[g.start], []);
      ViewHead(g, d, SetHead(d[g.start], []));
  }

  /** So is every run: the machine's disk is always the view of the disk that some sequence of
      one-block writes, at most one a step, has left. */
  lemma {:induction false} RunOnDisk(g: Geometry, base: Image<Block>, s: State<Block>, steps: seq<Step<Block>>, d: seq<Block>)
    returns (ws: seq<Write>)
    requires Inv(base, s) && Runs(g, s, steps) && Within(g, s, steps) && Readable(g, d) && s.disk == ViewOf(g, d)
    ensures |ws| <= |steps| && Readable(g, Apply(d, ws)) && Exec(g, s, steps).disk == ViewOf(g, Apply(d, ws))
    decreases |steps|
  {
    if steps == [] {
      ws := [];
    } else {
      var first := StepOnDisk(g, base, s, steps[0], d);
      StepKeepsInv(g, base, s, steps[0]);
      var rest := RunOnDisk(g, base, Do(g, s, steps[0]), steps[1..], Apply(d, first));
      ws := first + rest;
      ApplyAppend(d, first, rest);
    }
  }

  // ---------------------------------------------------------------- commit

  /** What commit() is about to install: the logged blocks as the operations left them. */
  ghost function LoggedData<B>(s: State<B>): (data: seq<B>)
    requires forall i :: 0 <= i < |s.lh| ==> s.lh[i] in s.hist.image
  {
    seq(|s.lh|, i requires 0 <= i < |s.lh| => s.hist.image[s.lh[i]])
  }

  /** The pc from which commit() performs write k of its 2n + 2 writes. */
  ghost function PcAt(n: nat, k: nat): PC {
    if k < n then WriteLog(k) else if k == n then WriteHead
    else if k <= 2 * n then Install(k - n - 1) else if k == 2 * n + 1 then EraseHead else Reopen
  }

  /** Write k of commit() of lh: the slots, the header, the home blocks, the empty header. */
  ghost function CommitWrite(g: Geometry, h: Block, lh: seq<word>, data: seq<Block>, k: nat): Write
    requires |data| == |lh| <= LOGSIZE
  {
    var n := |lh|;
    if k < n then Write(g.start + 1 + k, data[k]) else if k == n then Write(g.start, SetHead(h, lh))
    else if k <= 2 * n then Write(lh[k - n - 1], data[k - n - 1]) else Write(g.start, SetHead(SetHead(h, lh), []))
  }

  lemma CommitWritesAt(g: Geometry, d: seq<Block>, lh: seq<word>, data: seq<Block>, k: nat)
    requires Fits(g, d, lh) && |data| == |lh| && lh != [] && k < 2 * |lh| + 2
    ensures |CommitWrites(g, d, lh, data)| == 2 * |lh| + 2
    ensures CommitWrites(g, d, lh, data)[k] == CommitWrite(g, d[g.start], lh, data, k)
  {
    SlotWritesAt(g.start, data);
    HomeWritesAt(lh, data);
  }

  /** `data` is what was last logged for the blocks lh. */
  ghost predicate Logs<B>(image: Image<B>, lh: seq<word>, data: seq<B>) {
    |data| == |lh| && forall i :: 0 <= i < |lh| ==> lh[i] in image && data[i] == image[lh[i]]
  }

  /** Write k as a change of the view. */
  ghost function ViewAfter<B>(disk: Disk<B>, lh: seq<word>, data: seq<B>, k: nat): (r: Disk<B>)
    requires |data| == |lh| <= |disk.slots|
    ensures |r.slots| == |disk.slots|
  {
    var n := |lh|;
    if k < n then disk.(slots := disk.slots[k := data[k]]) else if k == n then disk.(head := lh)
    else if k <= 2 * n then disk.(home := disk.home[lh[k - n - 1] := data[k - n - 1]]) else disk.(head := [])
  }

  /** The view after the first k writes of commit(). */
  ghost function CommitView<B>(disk: Disk<B>, lh: seq<word>, data: seq<B>, k: nat): (r: Disk<B>)
    requires |data| == |lh| <= |disk.slots|
    ensures |r.slots| == |disk.slots|
  {
    if k == 0 then disk else ViewAfter(CommitView(disk, lh, data, k - 1), lh, data, k - 1)
  }

  lemma ViewWrite(g: Geometry, d: seq<Block>, h: Block, lh: seq<word>, data: seq<Block>, k: nat)
    requires Readable(g, d) && Fits(g, d, lh) && |data| == |lh|
    ensures var r := Put(d, CommitWrite(g, h, lh, data, k));
      Readable(g, r) && ViewOf(g, r) == ViewAfter(ViewOf(g, d), lh, data, k)
  {
    var n := |lh|;
    if k < n {
      ViewSlot(g, d, k, data[k]);
    } else if k == n {
      HeadRoundTrip(h, lh);
      ViewHead(g, d, SetHead(h, lh));
    } else if k <= 2 * n {
      assert g.Home(lh[k - n - 1]);
      ViewHome(g, d, lh[k - n - 1], data[k - n - 1]);
    } else {
      HeadRoundTrip(SetHead(h, lh), []);
      ViewHead(g, d, SetHead(SetHead(h, lh), []));
    }
  }

  lemma {:induction false} CommitViewIs(g: Geometry, d: seq<Block>, lh: seq<word>, data: seq<Block>, k: nat)
    requires Readable(g, d) && Fits(g, d, lh) && |data| == |lh| > 0 && k <= 2 * |lh| + 2
    ensures |CommitWrites(g, d, lh, data)| == 2 * |lh| + 2
    ensures var r := Apply(d, CommitWrites(g, d, lh, data)[..k]);
      Readable(g, r) && ViewOf(g, r) == CommitView(ViewOf(g, d), lh, data, k)
  {
    var ws := CommitWrites(g, d, lh, data);
    CommitWritesAt(g, d, lh, data, 0);
    if k == 0 {
      assert ws[..0] == [];
    } else {
      CommitViewIs(g, d, lh, data, k - 1);
      CommitWritesAt(g, d, lh, data, k - 1);
      ApplyNext(d, ws, k - 1);
      ViewWrite(g, Apply(d, ws[..k - 1]), d[g.start], lh, data, k - 1);
    }
  }

  /** What commit() copies next, to a slot or back home, is `data`. */
  ghost predicate Copies<B>(s: State<B>, data: seq<B>) {
    && |data| == |s.lh| <= |s.disk.slots|
    && (s.pc.WriteLog? && s.pc.t < |s.lh| ==> s.lh[s.pc.t] in s.cache && s.cache[s.lh[s.pc.t]].data == data[s.pc.t])
    && (s.pc.Install? && s.pc.t < |s.lh| ==> s.disk.slots[s.pc.t] == data[s.pc.t])
  }

  lemma CopiesLogged<B>(g: Geometry, base: Image<B>, s: State<B>, data: seq<B>)
    requires Inv(base, s) && CommitReady(g, s) && Logs(s.hist.image, s.lh, data)
    ensures Copies(s, data)
  {
    if s.pc.WriteLog? && s.pc.t < |s.lh| {
      CopiedIsLogged(base, s);
    } else if s.pc.Install? && s.pc.t < |s.lh| {
      SlotIsLogged(base, s);
    }
  }

  /** The step of commit() at write k performs that write. */
  lemma CommitStepIsWrite<B>(g: Geometry, lh: seq<word>, data: seq<B>, s: State<B>, k: nat)
    requires s.lh == lh != [] && Copies(s, data) && k < 2 * |lh| + 2 && s.pc == PcAt(|lh|, k) && CommitReady(g, s)
    ensures DoCommit(g, s).disk == ViewAfter(s.disk, lh, data, k) && DoCommit(g, s).pc == PcAt(|lh|, k + 1)
  {
  }

  /** What write_log copies is what was last logged. */
  lemma CopiedIsLogged<B>(base: Image<B>, s: State<B>)
    requires Inv(base, s) && s.pc.WriteLog? && s.pc.t < |s.lh| && Free(s.cache, s.lh[s.pc.t])
    ensures s.lh[s.pc.t] in s.hist.image && s.lh[s.pc.t] in s.cache
    ensures s.cache[s.lh[s.pc.t]].data == s.hist.image[s.lh[s.pc.t]]
  {
    var b := s.lh[s.pc.t];
    assert b in PinnedBlocks(s.lh, s.pc);
    assert BufInv(PinnedBlocks(s.lh, s.pc), s.ops, s.disk.home, s.hist.image, b, s.cache[b]);
  }

  /** What install_trans copies back is what was last logged. */
  lemma SlotIsLogged<B>(base: Image<B>, s: State<B>)
    requires Inv(base, s) && s.pc.Install? && s.pc.t < |s.lh|
    ensures s.lh[s.pc.t] in s.hist.image && s.pc.t < |s.disk.slots|
    ensures s.disk.slots[s.pc.t] == s.hist.image[s.lh[s.pc.t]]
  {
  }

  ghost function CommitSteps<B>(steps: seq<Step<B>>): (n: nat) {
    if steps == [] then 0 else (if steps[0].Commit? then 1 else 0) + CommitSteps(steps[1..])
  }

  ghost predicate NoCrash<B>(steps: seq<Step<B>>) {
    steps == [] || (!steps[0].Crash? && NoCrash(steps[1..]))
  }

  /** While commit() is under way nothing but its own steps changes the disk or the header. */
  lemma OthersKeepCommit<B>(g: Geometry, base: Image<B>, s: State<B>, step: Step<B>)
    requires Inv(base, s) && s.pc.Committing() && Enabled(g, s, step) && !step.Commit? && !step.Crash?
    ensures var r := Do(g, s, step); r.disk == s.disk && r.pc == s.pc && r.lh == s.lh && r.hist == s.hist
  {
  }

  /** commit() of lh, begun on disk, has performed its first k writes. */
  ghost predicate InCommit<B>(disk: Disk<B>, lh: seq<word>, data: seq<B>, s: State<B>, k: nat) {
    && 0 < |lh| <= |disk.slots| && Logs(s.hist.image, lh, data) && s.disk == CommitView(disk, lh, data, k)
    && k <= 2 * |lh| + 2 && s.pc == PcAt(|lh|, k) && (k < 2 * |lh| + 2 ==> s.lh == lh)
  }

  lemma CommitKeepsLog<B>(g: Geometry, s: State<B>)
    requires s.pc.Committing() && CommitReady(g, s) && !s.pc.Reopen?
    ensures DoCommit(g, s).hist.image == s.hist.image && (!s.pc.EraseHead? ==> DoCommit(g, s).lh == s.lh)
    ensures Fitting(s) ==> Fitting(DoCommit(g, s))
  {
  }

  lemma CommitStepInCommit<B>(g: Geometry, base: Image<B>, disk: Disk<B>, lh: seq<word>, data: seq<B>, s: State<B>, k: nat)
    requires Inv(base, s) && InCommit(disk, lh, data, s, k) && k < 2 * |lh| + 2 && CommitReady(g, s)
    ensures InCommit(disk, lh, data, DoCommit(g, s), k + 1) && Fitting(DoCommit(g, s))
  {
    CopiesLogged(g, base, s, data);
    CommitStepIsWrite(g, lh, data, s, k);
    CommitKeepsLog(g, s);
  }

  lemma StepInCommit<B>(g: Geometry, base: Image<B>, disk: Disk<B>, lh: seq<word>, data: seq<B>, s: State<B>, step: Step<B>,
                        k: nat, r: State<B>, k': nat)
    requires Inv(base, s) && InCommit(disk, lh, data, s, k) && Enabled(g, s, step) && !step.Crash? && r == Do(g, s, step)
    requires k' == (if step.Commit? then k + 1 else k) <= 2 * |lh| + 2
    ensures InCommit(disk, lh, data, r, k') && Fitting(r)
  {
    if step.Commit? {
      CommitStepInCommit(g, base, disk, lh, data, s, k);
    } else {
      OthersKeepCommit(g, base, s, step);
    }
  }

  /** The invariant holds in every state of the run. */
  ghost predicate InvRun<B>(g: Geometry, base: Image<B>, s: State<B>, steps: seq<Step<B>>)
    requires Runs(g, s, steps)
    decreases |steps|
  {
    Inv(base, s) && (steps == [] || InvRun(g, base, Do(g, s, steps[0]), steps[1..]))
  }

  lemma {:induction false} CommitInv<B>(g: Geometry, base: Image<B>, disk: Disk<B>, lh: seq<word>, data: seq<B>,
                                        s: State<B>, steps: seq<Step<B>>, k: nat)
    requires Inv(base, s) && InCommit(disk, lh, data, s, k) && Runs(g, s, steps) && NoCrash(steps)
    requires k + CommitSteps(steps) <= 2 * |lh| + 2
    ensures InvRun(g, base, s, steps)
    decreases |steps|
  {
    if steps != [] {
      var next, k' := Do(g, s, steps[0]), if steps[0].Commit? then k + 1 else k;
      StepInCommit(g, base, disk, lh, data, s, steps[0], k, next, k');
      StepKeepsInv(g, base, s, steps[0]);
      CommitInv(g, base, disk, lh, data, next, steps[1..], k');
    }
  }

  lemma {:induction false} CommitRun<B>(g: Geometry, base: Image<B>, disk: Disk<B>, lh: seq<word>, data: seq<B>,
                                        s: State<B>, steps: seq<Step<B>>, k: nat, r: State<B>, m: nat)
    requires Runs(g, s, steps) && InvRun(g, base, s, steps) && InCommit(disk, lh, data, s, k) && NoCrash(steps)
    requires r == Exec(g, s, steps) && m == k + CommitSteps(steps) <= 2 * |lh| + 2
    ensures r.disk == CommitView(disk, lh, data, m)
    decreases |steps|
  {
    if steps != [] {
      var next, k' := Do(g, s, steps[0]), if steps[0].Commit? then k + 1 else k;
      StepInCommit(g, base, disk, lh, data, s, steps[0], k, next, k');
      CommitRun(g, base, disk, lh, data, next, steps[1..], k', r, m);
    }
  }

  /** commit() performs exactly the writes of CommitWrites, in order: however readers interleave
      with it, after k of its steps the disk is that of the first k writes. */
  lemma CommitIsWrites(g: Geometry, base: Image<Block>, s: State<Block>, d: seq<Block>, steps: seq<Step<Block>>)
    requires Inv(base, s) && s.pc == WriteLog(0) && s.lh != [] && Readable(g, d) && s.disk == ViewOf(g, d)
    requires Runs(g, s, steps) && NoCrash(steps) && CommitSteps(steps) <= 2 * |s.lh| + 2
    ensures Fits(g, d, s.lh) && (forall i :: 0 <= i < |s.lh| ==> s.lh[i] in s.hist.image)
    ensures var r := Apply(d, CommitWrites(g, d, s.lh, LoggedData(s))[..CommitSteps(steps)]);
      Readable(g, r) && Exec(g, s, steps).disk == ViewOf(g, r)
  {
    LoggedFit(g, base, s, d);
    CommitInv(g, base, s.disk, s.lh, LoggedData(s), s, steps, 0);
    CommitRun(g, base, s.disk, s.lh, LoggedData(s), s, steps, 0, Exec(g, s, steps), CommitSteps(steps));
    CommitViewIs(g, d, s.lh, LoggedData(s), CommitSteps(steps));
  }

  lemma LoggedFit(g: Geometry, base: Image<Block>, s: State<Block>, d: seq<Block>)
    requires Inv(base, s) && Readable(g, d) && s.disk == ViewOf(g, d)
    ensures Fits(g, d, s.lh) && (forall i :: 0 <= i < |s.lh| ==> s.lh[i] in s.hist.image)
  {
    assert forall i :: 0 <= i < |s.lh| ==> s.lh[i] in s.disk.home;
  }

  // ---------------------------------------------------------------- recovery

  ghost function RecoverPcAt(n: nat, k: nat): PC {
    if k < n then RecInstall(k) else if k == n then RecErase else Running
  }

  ghost predicate HeadHome<B>(disk: Disk<B>) {
    |disk.head| <= |disk.slots| && forall i :: 0 <= i < |disk.head| ==> disk.head[i] in disk.home
  }

  /** Write k of the recovery of disk, made on d. */
  ghost function RecoverNext<B>(disk: Disk<B>, d: Disk<B>, k: nat): (r: Disk<B>)
    requires HeadHome(disk) && d.home.Keys == disk.home.Keys
    ensures r.home.Keys == disk.home.Keys && r.slots == d.slots
  {
    if k < |disk.head| then d.(home := d.home[disk.head[k] := disk.slots[k]]) else d.(head := [])
  }

  /** The view after the first k writes of recovery. */
  ghost function RecoverView<B>(disk: Disk<B>, k: nat): (r: Disk<B>)
    requires HeadHome(disk)
    ensures r.home.Keys == disk.home.Keys && r.slots == disk.slots
  {
    if k == 0 then disk else RecoverNext(disk, RecoverView(disk, k - 1), k - 1)
  }

  lemma HeadIsHome(g: Geometry, d: seq<Block>)
    requires HeadFits(g, d)
    ensures HeadHome(ViewOf(g, d))
  {
    assert forall i :: 0 <= i < |Head(d[g.start])| ==> g.Home(Head(d[g.start])[i]);
  }

  lemma {:induction false} RecoverViewIs(g: Geometry, d: seq<Block>, disk: Disk<Block>, k: nat, r: seq<Block>)
    requires HeadFits(g, d) && k <= |RecoverWrites(g, d)| && disk == ViewOf(g, d) && r == Apply(d, RecoverWrites(g, d)[..k])
    ensures HeadHome(disk) && Readable(g, r) && ViewOf(g, r) == RecoverView(disk, k)
  {
    var ws := RecoverWrites(g, d);
    HeadIsHome(g, d);
    if k == 0 {
      assert ws[..0] == [];
    } else {
      var now := Apply(d, ws[..k - 1]);
      RecoverViewIs(g, d, disk, k - 1, now);
      ApplyNext(d, ws, k - 1);
      RecoverWrite(g, d, disk, now, k - 1, r);
    }
  }

  lemma RecoverWrite(g: Geometry, d: seq<Block>, disk: Disk<Block>, now: seq<Block>, k: nat, r: seq<Block>)
    requires HeadFits(g, d) && k < |RecoverWrites(g, d)| && Readable(g, now) && disk == ViewOf(g, d) && HeadHome(disk)
    requires r == Put(now, RecoverWrites(g, d)[k])
    ensures Readable(g, r) && ViewOf(g, now).home.Keys == disk.home.Keys && ViewOf(g, r) == RecoverNext(disk, ViewOf(g, now), k)
  {
    var lh := Head(d[g.start]);
    HomeWritesAt(lh, Slots(g, d, |lh|));
    if k < |lh| {
      assert g.Home(lh[k]);
      assert Slots(g, d, |lh|)[k] == disk.slots[k];
      ViewHome(g, now, lh[k], disk.slots[k]);
    } else {
      HeadRoundTrip(d[g.start], []);
      ViewHead(g, now, SetHead(d[g.start], []));
    }
  }

  /** Recovery of a disk has performed its first k writes. */
  ghost predicate InRecovery<B>(disk: Disk<B>, s: State<B>, k: nat) {
    && HeadHome(disk) && k <= |disk.head| + 1 && s.disk == RecoverView(disk, k)
    && s.pc == RecoverPcAt(|disk.head|, k) && s.lh == (if s.pc.Running? then [] else disk.head)
  }

  lemma RecoverStepIsWrite<B>(g: Geometry, disk: Disk<B>, s: State<B>, k: nat)
    requires InRecovery(disk, s, k) && k <= |disk.head|
    ensures Enabled(g, s, Recover) && InRecovery(disk, Do(g, s, Recover), k + 1)
  {
  }

  ghost function RecoverSteps<B>(n: nat): (steps: seq<Step<B>>)
    ensures |steps| == n
  {
    if n == 0 then [] else [Recover] + RecoverSteps(n - 1)
  }

  lemma RunsCons<B>(g: Geometry, s: State<B>, step: Step<B>, rest: seq<Step<B>>)
    requires Enabled(g, s, step) && Runs(g, Do(g, s, step), rest)
    ensures Runs(g, s, [step] + rest) && Exec(g, s, [step] + rest) == Exec(g, Do(g, s, step), rest)
  {
    assert ([step] + rest)[1..] == rest;
  }

  lemma {:induction false} RecoverRun<B>(g: Geometry, disk: Disk<B>, s: State<B>, k: nat, n: nat, m: nat) returns (r: State<B>)
    requires InRecovery(disk, s, k) && m == k + n <= |disk.head| + 1
    ensures Runs(g, s, RecoverSteps(n)) && r == Exec(g, s, RecoverSteps(n)) && InRecovery(disk, r, m)
    decreases n
  {
    if n == 0 {
      r := s;
    } else {
      RecoverStepIsWrite(g, disk, s, k);
      r := RecoverRun(g, disk, Do(g, s, Recover), k + 1, n - 1, m);
      RunsCons(g, s, Recover, RecoverSteps(n - 1));
    }
  }

  /** Booting from a disk and letting recovery run takes the machine through the disks that the
      prefixes of RecoverWrites leave, to the recovered disk. */
  lemma RecoveryIsWrites(g: Geometry, d: seq<Block>, hist: History<Block>, k: nat)
    requires HeadFits(g, d) && k <= |RecoverWrites(g, d)|
    ensures Runs(g, Boot(ViewOf(g, d), hist), RecoverSteps(k))
    ensures var s := Exec(g, Boot(ViewOf(g, d), hist), RecoverSteps(k));
      var r := Apply(d, RecoverWrites(g, d)[..k]);
      && Readable(g, r) && s.disk == ViewOf(g, r)
      && (s.pc.Running? <==> k == |RecoverWrites(g, d)|) && (s.pc.Running? ==> r == Recovered(g, d))
  {
    var ws := RecoverWrites(g, d);
    RecoverViewIs(g, d, ViewOf(g, d), k, Apply(d, ws[..k]));
    var s := RecoverRun(g, ViewOf(g, d), Boot(ViewOf(g, d), hist), 0, k, k);
    if k == |ws| { assert ws[..k] == ws; }
  }

  // ---------------------------------------------------------------- both notions of recovery

  lemma {:induction false} RestorePrefix<B>(disk: Disk<B>, n: nat)
    requires HeadHome(disk) && n <= |disk.head|
    ensures Restore(disk, n) == RecoverView(disk, n).home
  {
    if n > 0 { RestorePrefix(disk, n - 1); }
  }

  /** What the machine's theorems call the restored home blocks are the home blocks of the disk
      after recover_from_log. */
  lemma RestoreIsRecovered(g: Geometry, d: seq<Block>)
    requires HeadFits(g, d)
    ensures Readable(g, Recovered(g, d)) && Restore(ViewOf(g, d), |Head(d[g.start])|) == HomeOf(g, Recovered(g, d))
  {
    var ws := RecoverWrites(g, d);
    var n := |Head(d[g.start])|;
    RecoverViewIs(g, d, ViewOf(g, d), n + 1, Apply(d, ws[..n + 1]));
    RestorePrefix(ViewOf(g, d), n);
    assert ws[..n + 1] == ws;
  }

  /** Whole-operation atomicity of the disk itself. From any disk with a sound header, after any
      run, there is a sequence of one-block writes, at most one a step, that has led to a disk with
      a sound header; and recovering that disk yields the home blocks that the durable part of
      the history makes of the first disk's recovered home blocks. */
  lemma DiskRecovers(g: Geometry, d: seq<Block>, steps: seq<Step<Block>>) returns (ws: seq<Write>)
    requires HeadFits(g, d) && Distinct(Head(d[g.start])) && RegionRun(g, ViewOf(g, d), steps)
    ensures |ws| <= |steps| && HeadFits(g, Apply(d, ws)) && Distinct(Head(Apply(d, ws)[g.start]))
    ensures var s := Exec(g, Init(ViewOf(g, d)), steps);
      && s.disk == ViewOf(g, Apply(d, ws))
      && HomeOf(g, Recovered(g, Apply(d, ws))) == Replay(HomeOf(g, Recovered(g, d)), s.hist.events[..Durable(s.hist)])
  {
    var disk := ViewOf(g, d);
    var s := Exec(g, Init(disk), steps);
    InitInv(g, disk);
    RunInv(g, Restore(disk, |disk.head|), Init(disk), steps);
    ws := RunOnDisk(g, Restore(disk, |disk.head|), Init(disk), steps, d);
    WholeOperationAtomicity(g, disk, steps);
    HeadStaysSound(g, Apply(d, ws));
    RestoreIsRecovered(g, d);
    RestoreIsRecovered(g, Apply(d, ws));
  }

  lemma HeadStaysSound(g: Geometry, d: seq<Block>)
    requires Readable(g, d) && Bootable(g, ViewOf(g, d))
    ensures HeadFits(g, d) && Distinct(Head(d[g.start]))
  {
    assert forall i :: 0 <= i < |ViewOf(g, d).head| ==> ViewOf(g, d).head[i] in ViewOf(g, d).home;
  }
}
