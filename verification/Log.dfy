/** The write-ahead log of log.c: its on-disk format, commit, recovery, and the
    sequence of one-block disk writes each of them performs. */
module Log {
  import opened Words

  const MAXOPBLOCKS: nat := 10
  const LOGSIZE: nat := 30

  /** Where the log lies on the disk: a header block at `start`, then `size - 1` data slots. */
  datatype Geometry = Geometry(nblocks: nat, start: nat, size: nat) {
    predicate Valid() {
      && 0 < size
      && start + size <= nblocks <= WORD_LIMIT
    }

    /** A block outside the log region. */
    predicate Home(b: nat) {
      b < nblocks && !(start <= b < start + size)
    }

    predicate AllHome(lh: seq<word>) {
      forall i :: 0 <= i < |lh| ==> Home(lh[i])
    }
  }

  /** One `bwrite`: a single block, hence a single sector, reaches the disk atomically. */
  datatype Write = Write(bno: nat, data: Block)

  // ---------------------------------------------------------------- header block

  function HeadCount(b: Block): (n: word) {
    b.w[0]
  }

  /** The block numbers recorded in a header block. */
  function Head(b: Block): (lh: seq<word>)
    requires HeadCount(b) <= LOGSIZE
  {
    b.w[1..1 + b.w[0]]
  }

  /** The header block write_head produces from an old header block: stale entries stay. */
  function SetHead(b: Block, lh: seq<word>): (r: Block)
    requires |lh| <= LOGSIZE
  {
    Words([|lh| as word] + lh + b.w[1 + |lh|..])
  }

  /** What write_head stores, read_head reads back, whatever was in the block before. */
  lemma HeadRoundTrip(b: Block, lh: seq<word>)
    requires |lh| <= LOGSIZE
    ensures HeadCount(SetHead(b, lh)) == |lh|
    ensures Head(SetHead(b, lh)) == lh
  {
  }

  // ---------------------------------------------------------------- write sequences

  /** The disk after one write. (The driver refuses block numbers beyond the disk.) */
  function Put(d: seq<Block>, w: Write): (r: seq<Block>)
    ensures |r| == |d|
  {
    if w.bno < |d| then d[w.bno := w.data] else d
  }

  /** The disk after a sequence of one-block writes. */
  function Apply(d: seq<Block>, ws: seq<Write>): (r: seq<Block>)
    ensures |r| == |d|
  {
    if ws == [] then d else Put(Apply(d, ws[..|ws| - 1]), ws[|ws| - 1])
  }

  /** The contents of block b after the writes ws, when it was v before. */
  function LastWrite(ws: seq<Write>, b: nat, v: Block): (r: Block) {
    if ws == [] then v
    else if ws[|ws| - 1].bno == b then ws[|ws| - 1].data
    else LastWrite(ws[..|ws| - 1], b, v)
  }

  predicate Writes(ws: seq<Write>, b: nat) {
    exists i :: 0 <= i < |ws| && ws[i].bno == b
  }

  lemma {:induction false} ApplyAt(d: seq<Block>, ws: seq<Write>, b: nat)
    requires b < |d|
    ensures Apply(d, ws)[b] == LastWrite(ws, b, d[b])
  {
    if ws != [] {
      ApplyAt(d, ws[..|ws| - 1], b);
    }
  }

  lemma {:induction false} LastWriteAppend(ws: seq<Write>, vs: seq<Write>, b: nat, v: Block)
    ensures LastWrite(ws + vs, b, v) == LastWrite(vs, b, LastWrite(ws, b, v))
  {
    if vs == [] {
      assert ws + vs == ws;
    } else {
      assert (ws + vs)[..|ws + vs| - 1] == ws + vs[..|vs| - 1];
      LastWriteAppend(ws, vs[..|vs| - 1], b, v);
    }
  }

  lemma {:induction false} ApplyAppend(d: seq<Block>, ws: seq<Write>, vs: seq<Write>)
    ensures Apply(d, ws + vs) == Apply(Apply(d, ws), vs)
  {
    if vs == [] {
      assert ws + vs == ws;
    } else {
      assert (ws + vs)[..|ws + vs| - 1] == ws + vs[..|vs| - 1];
      ApplyAppend(d, ws, vs[..|vs| - 1]);
    }
  }

  lemma {:induction false} LastWriteUnwritten(ws: seq<Write>, b: nat, v: Block)
    requires !Writes(ws, b)
    ensures LastWrite(ws, b, v) == v
  {
    if ws != [] {
      assert !Writes(ws[..|ws| - 1], b) by {
        assert forall i :: 0 <= i < |ws| - 1 ==> ws[..|ws| - 1][i] == ws[i];
      }
      assert ws[|ws| - 1].bno != b;
      LastWriteUnwritten(ws[..|ws| - 1], b, v);
    }
  }

  /** A written block forgets what it held before. */
  lemma {:induction false} LastWriteForgets(ws: seq<Write>, b: nat, v: Block, u: Block)
    requires Writes(ws, b)
    ensures LastWrite(ws, b, v) == LastWrite(ws, b, u)
  {
    if ws[|ws| - 1].bno != b {
      var i :| 0 <= i < |ws| && ws[i].bno == b;
      assert ws[..|ws| - 1][i].bno == b;
      LastWriteForgets(ws[..|ws| - 1], b, v, u);
    }
  }

  /** Redoing a sequence of writes after any prefix of it changes nothing. */
  lemma RedoAfterPrefix(ws: seq<Write>, j: nat, b: nat, v: Block)
    requires j <= |ws|
    ensures LastWrite(ws, b, LastWrite(ws[..j], b, v)) == LastWrite(ws, b, v)
  {
    if Writes(ws[..j], b) {
      var i :| 0 <= i < j && ws[..j][i].bno == b;
      assert ws[i].bno == b;
      LastWriteForgets(ws, b, LastWrite(ws[..j], b, v), v);
    } else {
      LastWriteUnwritten(ws[..j], b, v);
    }
  }

  // ---------------------------------------------------------------- commit and recovery

  /** write_log: slot i of the log receives the i-th logged block. */
  function SlotWrites(start: nat, data: seq<Block>): (ws: seq<Write>)
    ensures |ws| == |data|
  {
    if data == [] then [] else SlotWrites(start, data[..|data| - 1]) + [Write(start + |data|, data[|data| - 1])]
  }

  lemma {:induction false} SlotWritesAt(start: nat, data: seq<Block>)
    ensures forall i :: 0 <= i < |data| ==> SlotWrites(start, data)[i] == Write(start + 1 + i, data[i])
  {
    if data != [] { SlotWritesAt(start, data[..|data| - 1]); }
  }

  /** install_trans: the i-th logged block receives slot i of the log. */
  function HomeWrites(lh: seq<word>, data: seq<Block>): (ws: seq<Write>)
    requires |lh| == |data|
    ensures |ws| == |lh|
  {
    if lh == [] then [] else
    HomeWrites(lh[..|lh| - 1], data[..|lh| - 1]) + [Write(lh[|lh| - 1], data[|lh| - 1])]
  }

  lemma {:induction false} HomeWritesAt(lh: seq<word>, data: seq<Block>)
    requires |lh| == |data|
    ensures forall i :: 0 <= i < |lh| ==> HomeWrites(lh, data)[i] == Write(lh[i], data[i])
  {
    if lh != [] { HomeWritesAt(lh[..|lh| - 1], data[..|lh| - 1]); }
  }

  function Slots(g: Geometry, d: seq<Block>, n: nat): (data: seq<Block>)
    requires g.start + n < |d|
  {
    d[g.start + 1..g.start + 1 + n]
  }

  predicate Fits(g: Geometry, d: seq<Block>, lh: seq<word>) {
    g.Valid() && |d| == g.nblocks && g.AllHome(lh) && |lh| <= LOGSIZE && |lh| < g.size
  }

  /** Every one-block write of commit(), in order. */
  function CommitWrites(g: Geometry, d: seq<Block>, lh: seq<word>, data: seq<Block>): (ws: seq<Write>)
    requires Fits(g, d, lh) && |data| == |lh|
  {
    if lh == [] then [] else
    var head := SetHead(d[g.start], lh);
    SlotWrites(g.start, data) + [Write(g.start, head)] + HomeWrites(lh, data) + [Write(g.start, SetHead(head, []))]
  }

  /** The disk's header block describes a log that fits. */
  predicate HeadFits(g: Geometry, d: seq<Block>) {
    && g.Valid() && |d| == g.nblocks
    && HeadCount(d[g.start]) <= LOGSIZE
    && Fits(g, d, Head(d[g.start]))
  }

  /** Every one-block write of recover_from_log(), in order, from the disk found at boot. */
  function RecoverWrites(g: Geometry, d: seq<Block>): (ws: seq<Write>)
    requires HeadFits(g, d)
    ensures |ws| == |Head(d[g.start])| + 1
  {
    HomeWrites(Head(d[g.start]), Slots(g, d, |Head(d[g.start])|)) + [Write(g.start, SetHead(d[g.start], []))]
  }

  function Recovered(g: Geometry, d: seq<Block>): (r: seq<Block>)
    requires HeadFits(g, d)
  {
    Apply(d, RecoverWrites(g, d))
  }

  ghost predicate SameHome(g: Geometry, d: seq<Block>, d': seq<Block>) {
    |d| == |d'| == g.nblocks && forall b: nat :: g.Home(b) ==> d[b] == d'[b]
  }

  /** recover_from_log cut short after j of its writes, then run again to the end, gives
      the home blocks of one uninterrupted run: recovery may crash and restart. */
  lemma RecoveryRestarts(g: Geometry, d: seq<Block>, j: nat)
    requires HeadFits(g, d) && j <= |RecoverWrites(g, d)|
    ensures HeadFits(g, Apply(d, RecoverWrites(g, d)[..j]))
    ensures SameHome(g, Recovered(g, Apply(d, RecoverWrites(g, d)[..j])), Recovered(g, d))
  {
    var ws := RecoverWrites(g, d);
    HomeWritesAt(Head(d[g.start]), Slots(g, d, |Head(d[g.start])|));
    var d' := Apply(d, ws[..j]);
    if j == |ws| {
      RecoveredIsClean(g, d);
      assert ws[..j] == ws;
      RecoverCleanDisk(g, d');
    } else {
      forall b: nat | g.start <= b < g.start + g.size ensures d'[b] == d[b] {
        assert !Writes(ws[..j], b);
        ApplyAt(d, ws[..j], b);
        LastWriteUnwritten(ws[..j], b, d[b]);
      }
      assert Slots(g, d', |Head(d[g.start])|) == Slots(g, d, |Head(d[g.start])|);
      assert RecoverWrites(g, d') == ws;
      forall b: nat | g.Home(b) ensures Recovered(g, d')[b] == Recovered(g, d)[b] {
        ApplyAt(d', ws, b);
        ApplyAt(d, ws[..j], b);
        ApplyAt(d, ws, b);
        RedoAfterPrefix(ws, j, b, d[b]);
      }
    }
  }

  /** A finished recovery leaves an empty header. */
  lemma RecoveredIsClean(g: Geometry, d: seq<Block>)
    requires HeadFits(g, d)
    ensures HeadFits(g, Recovered(g, d)) && Head(Recovered(g, d)[g.start]) == []
  {
    assert RecoverWrites(g, d)[..|Head(d[g.start])|] == HomeWrites(Head(d[g.start]), Slots(g, d, |Head(d[g.start])|));
  }

  lemma RecoverCleanDisk(g: Geometry, d: seq<Block>)
    requires HeadFits(g, d) && Head(d[g.start]) == []
    ensures SameHome(g, Recovered(g, d), d)
  {
    var ws := RecoverWrites(g, d);
    forall b: nat | g.Home(b) ensures Apply(d, ws)[b] == d[b] {
      ApplyAt(d, ws, b);
      assert !Writes(ws, b);
      LastWriteUnwritten(ws, b, d[b]);
    }
  }

  /** Boot attempts, each cut short by a crash after some number of recovery writes. */
  function AfterCrashes(g: Geometry, d: seq<Block>, crashes: seq<nat>): (r: seq<Block>)
    requires HeadFits(g, d)
    ensures HeadFits(g, r)
    decreases |crashes|
  {
    if crashes == [] then d else
    var ws := RecoverWrites(g, d);
    var j := if crashes[0] <= |ws| then crashes[0] else |ws|;
    RecoveryRestarts(g, d, j);
    AfterCrashes(g, Apply(d, ws[..j]), crashes[1..])
  }

  lemma {:induction false} CrashingRecoveryConverges(g: Geometry, d: seq<Block>, crashes: seq<nat>)
    requires HeadFits(g, d)
    ensures SameHome(g, Recovered(g, AfterCrashes(g, d, crashes)), Recovered(g, d))
    decreases |crashes|
  {
    if crashes != [] {
      var ws := RecoverWrites(g, d);
      var j := if crashes[0] <= |ws| then crashes[0] else |ws|;
      RecoveryRestarts(g, d, j);
      CrashingRecoveryConverges(g, Apply(d, ws[..j]), crashes[1..]);
    }
  }

  /** The last write to a block decides its contents. */
  lemma {:induction false} LastWriteIs(ws: seq<Write>, i: nat, v: Block)
    requires i < |ws|
    requires forall j :: i < j < |ws| ==> ws[j].bno != ws[i].bno
    ensures LastWrite(ws, ws[i].bno, v) == ws[i].data
  {
    if i < |ws| - 1 {
      assert ws[|ws| - 1].bno != ws[i].bno;
      LastWriteIs(ws[..|ws| - 1], i, v);
    }
  }

  predicate Distinct(lh: seq<word>) {
    lh == [] || (Distinct(lh[..|lh| - 1]) && lh[|lh| - 1] !in lh[..|lh| - 1])
  }

  lemma {:induction false} DistinctAt(lh: seq<word>, i: nat)
    requires Distinct(lh) && i < |lh|
    ensures forall j :: 0 <= j < |lh| && j != i ==> lh[j] != lh[i]
  {
    var init := lh[..|lh| - 1];
    assert forall j :: 0 <= j < |init| ==> lh[j] == init[j] && init[j] in init;
    if i < |init| { DistinctAt(init, i); }
  }

  /** d' holds the new contents `data` at the logged blocks lh, and d's elsewhere outside the log. */
  ghost predicate NewHome(g: Geometry, d: seq<Block>, lh: seq<word>, data: seq<Block>, d': seq<Block>) {
    && |d| == |d'| == g.nblocks && |lh| == |data|
    && forall b: nat :: g.Home(b) ==> NewHomeAt(d, lh, data, b, d'[b])
  }

  ghost predicate NewHomeAt(d: seq<Block>, lh: seq<word>, data: seq<Block>, b: nat, v: Block)
    requires b < |d| && |lh| == |data|
  {
    && (b !in lh ==> v == d[b])
    && (forall i :: 0 <= i < |lh| && lh[i] == b ==> v == data[i])
  }

  /** The disk when commit() has been cut short after k of its writes. */
  function CommitCut(g: Geometry, d: seq<Block>, lh: seq<word>, data: seq<Block>, k: nat): (r: seq<Block>)
    requires Fits(g, d, lh) && |data| == |lh| && lh != [] && k <= |CommitWrites(g, d, lh, data)|
    ensures |r| == |d|
  {
    Apply(d, CommitWrites(g, d, lh, data)[..k])
  }

  /** The shape of commit()'s writes: slots, header, home blocks, empty header. */
  ghost predicate CommitShape(g: Geometry, d: seq<Block>, lh: seq<word>, data: seq<Block>, ws: seq<Write>)
    requires Fits(g, d, lh) && |data| == |lh|
  {
    && |ws| == 2 * |lh| + 2
    && (forall i :: 0 <= i < |lh| ==> ws[i] == Write(g.start + 1 + i, data[i]))
    && ws[|lh|] == Write(g.start, SetHead(d[g.start], lh))
    && (forall i :: |lh| < i <= 2 * |lh| ==> ws[i] == Write(lh[i - |lh| - 1], data[i - |lh| - 1]))
    && ws[2 * |lh| + 1] == Write(g.start, SetHead(SetHead(d[g.start], lh), []))
  }

  lemma CommitHasShape(g: Geometry, d: seq<Block>, lh: seq<word>, data: seq<Block>)
    requires Fits(g, d, lh) && |data| == |lh| && lh != []
    ensures CommitShape(g, d, lh, data, CommitWrites(g, d, lh, data))
  {
    SlotWritesAt(g.start, data);
    HomeWritesAt(lh, data);
  }

  /** A block that is neither logged nor written so far keeps its contents. */
  lemma CutKeeps(g: Geometry, d: seq<Block>, lh: seq<word>, data: seq<Block>, ws: seq<Write>, k: nat, b: nat)
    requires Fits(g, d, lh) && |data| == |lh| && CommitShape(g, d, lh, data, ws) && k <= |ws| && b < |d|
    requires k <= |lh| ==> g.Home(b) || b == g.start
    requires k > |lh| ==> g.Home(b) && b !in lh
    ensures LastWrite(ws[..k], b, d[b]) == d[b]
  {
    forall i | 0 <= i < k ensures ws[..k][i].bno != b {
      if |lh| < i <= 2 * |lh| {
        assert ws[i].bno == lh[i - |lh| - 1];
      }
    }
    LastWriteUnwritten(ws[..k], b, d[b]);
  }

  /** Slot i keeps its copy of the i-th logged block from the header write on. */
  lemma CutSlot(g: Geometry, d: seq<Block>, lh: seq<word>, data: seq<Block>, ws: seq<Write>, k: nat, i: nat)
    requires Fits(g, d, lh) && |data| == |lh| && CommitShape(g, d, lh, data, ws) && |lh| < k <= |ws| && i < |lh|
    ensures LastWrite(ws[..k], g.start + 1 + i, d[g.start + 1 + i]) == data[i]
  {
    forall j | i < j < k ensures ws[..k][j].bno != ws[..k][i].bno {
      if |lh| < j <= 2 * |lh| {
        assert g.Home(lh[j - |lh| - 1]);
      }
    }
    LastWriteIs(ws[..k], i, d[g.start + 1 + i]);
  }

  /** The header names the transaction until it is erased. */
  lemma CutHead(g: Geometry, d: seq<Block>, lh: seq<word>, data: seq<Block>, ws: seq<Write>, k: nat)
    requires Fits(g, d, lh) && |data| == |lh| && CommitShape(g, d, lh, data, ws) && |lh| < k <= |ws|
    ensures LastWrite(ws[..k], g.start, d[g.start]) ==
            if k < |ws| then SetHead(d[g.start], lh) else SetHead(SetHead(d[g.start], lh), [])
  {
    if k < |ws| {
      forall j | |lh| < j < k ensures ws[..k][j].bno != g.start {
        assert g.Home(lh[j - |lh| - 1]);
      }
      LastWriteIs(ws[..k], |lh|, d[g.start]);
    } else {
      LastWriteIs(ws[..k], 2 * |lh| + 1, d[g.start]);
    }
  }

  /** All writes done, every logged block holds its new contents. */
  lemma CutInstalled(g: Geometry, d: seq<Block>, lh: seq<word>, data: seq<Block>, ws: seq<Write>, i: nat)
    requires Fits(g, d, lh) && |data| == |lh| && CommitShape(g, d, lh, data, ws) && Distinct(lh) && i < |lh|
    ensures LastWrite(ws, lh[i], d[lh[i]]) == data[i]
  {
    var at := |lh| + 1 + i;
    DistinctAt(lh, i);
    assert ws[at] == Write(lh[i], data[i]) && g.Home(lh[i]);
    forall j | at < j < |ws| ensures ws[j].bno != lh[i] {
      if j <= 2 * |lh| {
        assert ws[j].bno == lh[j - |lh| - 1];
      }
    }
    LastWriteIs(ws, at, d[lh[i]]);
  }

  /** Recovery's erasure of the header touches no home block. */
  lemma RecoveredAt(g: Geometry, d: seq<Block>, lh: seq<word>, b: nat)
    requires HeadFits(g, d) && Head(d[g.start]) == lh && g.Home(b)
    ensures Recovered(g, d)[b] == LastWrite(HomeWrites(lh, Slots(g, d, |lh|)), b, d[b])
  {
    var ws := HomeWrites(lh, Slots(g, d, |lh|));
    var erase := Write(g.start, SetHead(d[g.start], []));
    ApplyAt(d, ws + [erase], b);
    LastWriteAppend(ws, [erase], b, d[b]);
    assert [erase][..0] == [];
  }

  /** Recovering from a disk whose log holds lh yields the slots at the logged blocks. */
  lemma RecoverLogged(g: Geometry, d: seq<Block>, lh: seq<word>, b: nat)
    requires HeadFits(g, d) && Head(d[g.start]) == lh && Distinct(lh) && g.Home(b)
    ensures b !in lh ==> Recovered(g, d)[b] == d[b]
    ensures forall i :: 0 <= i < |lh| && lh[i] == b ==> Recovered(g, d)[b] == d[g.start + 1 + i]
  {
    RecoveredAt(g, d, lh, b);
    FromSlots(g, d, lh, b, Recovered(g, d)[b]);
  }

  lemma FromSlots(g: Geometry, d: seq<Block>, lh: seq<word>, b: nat, v: Block)
    requires Fits(g, d, lh) && Distinct(lh) && g.Home(b) && v == LastWrite(HomeWrites(lh, Slots(g, d, |lh|)), b, d[b])
    ensures b !in lh ==> v == d[b]
    ensures forall i :: 0 <= i < |lh| && lh[i] == b ==> v == d[g.start + 1 + i]
  {
    HomeWritten(lh, Slots(g, d, |lh|), b, d[b]);
  }

  lemma HomeWritten(lh: seq<word>, data: seq<Block>, b: nat, v: Block)
    requires |lh| == |data| && Distinct(lh)
    ensures b !in lh ==> LastWrite(HomeWrites(lh, data), b, v) == v
    ensures forall i :: 0 <= i < |lh| && lh[i] == b ==> LastWrite(HomeWrites(lh, data), b, v) == data[i]
  {
    var ws := HomeWrites(lh, data);
    HomeWritesAt(lh, data);
    if b in lh {
      forall i | 0 <= i < |lh| && lh[i] == b ensures LastWrite(ws, b, v) == data[i] {
        DistinctAt(lh, i);
        LastWriteIs(ws, i, v);
      }
    } else {
      assert !Writes(ws, b);
      LastWriteUnwritten(ws, b, v);
    }
  }

  /** commit() cut short anywhere, then recovered: all old before the header write, all new after. */
  lemma CommitCutRecovers(g: Geometry, d: seq<Block>, lh: seq<word>, data: seq<Block>, k: nat)
    requires Fits(g, d, lh) && |data| == |lh| && lh != [] && Distinct(lh)
    requires HeadFits(g, d) && Head(d[g.start]) == []
    requires k <= |CommitWrites(g, d, lh, data)|
    ensures var c := CommitCut(g, d, lh, data, k);
      && HeadFits(g, c)
      && if k <= |lh| then SameHome(g, Recovered(g, c), d) else NewHome(g, d, lh, data, Recovered(g, c))
  {
    CommitHasShape(g, d, lh, data);
    var ws := CommitWrites(g, d, lh, data);
    var c := CommitCut(g, d, lh, data, k);
    forall x: nat | x < |d| ensures c[x] == LastWrite(ws[..k], x, d[x]) {
      ApplyAt(d, ws[..k], x);
    }
    CutHeader(g, d, lh, data, ws, k);
    forall b: nat | g.Home(b)
      ensures if k <= |lh| then Recovered(g, c)[b] == d[b] else NewHomeAt(d, lh, data, b, Recovered(g, c)[b])
    {
      CommitCutRecoversAt(g, d, lh, data, ws, k, c, b);
    }
  }

  /** The header block after k writes. */
  lemma CutHeader(g: Geometry, d: seq<Block>, lh: seq<word>, data: seq<Block>, ws: seq<Write>, k: nat)
    requires Fits(g, d, lh) && |data| == |lh| && CommitShape(g, d, lh, data, ws) && k <= |ws|
    requires HeadFits(g, d) && Head(d[g.start]) == []
    ensures var h := LastWrite(ws[..k], g.start, d[g.start]);
      HeadCount(h) <= LOGSIZE && Head(h) == if |lh| < k < |ws| then lh else []
  {
    if k <= |lh| {
      CutKeeps(g, d, lh, data, ws, k, g.start);
    } else {
      CutHead(g, d, lh, data, ws, k);
      HeadRoundTrip(d[g.start], lh);
      HeadRoundTrip(SetHead(d[g.start], lh), []);
    }
  }

  lemma CommitCutRecoversAt(g: Geometry, d: seq<Block>, lh: seq<word>, data: seq<Block>,
                            ws: seq<Write>, k: nat, c: seq<Block>, b: nat)
    requires Fits(g, d, lh) && |data| == |lh| && CommitShape(g, d, lh, data, ws) && Distinct(lh) && k <= |ws|
    requires HeadFits(g, c) && Head(c[g.start]) == if |lh| < k < |ws| then lh else []
    requires forall x: nat :: x < |d| ==> c[x] == LastWrite(ws[..k], x, d[x])
    requires g.Home(b)
    ensures if k <= |lh| then Recovered(g, c)[b] == d[b] else NewHomeAt(d, lh, data, b, Recovered(g, c)[b])
  {
    RecoverLogged(g, c, Head(c[g.start]), b);
    if k <= |lh| || b !in lh {
      CutKeeps(g, d, lh, data, ws, k, b);
    } else {
      LoggedValue(g, d, lh, data, ws, k, c, b, Recovered(g, c)[b]);
    }
  }

  /** v is what recovery makes of the logged block b once the header has been written. */
  lemma LoggedValue(g: Geometry, d: seq<Block>, lh: seq<word>, data: seq<Block>,
                    ws: seq<Write>, k: nat, c: seq<Block>, b: nat, v: Block)
    requires Fits(g, d, lh) && |data| == |lh| && CommitShape(g, d, lh, data, ws) && Distinct(lh) && |lh| < k <= |ws|
    requires |c| == |d| && (forall x: nat :: x < |d| ==> c[x] == LastWrite(ws[..k], x, d[x])) && g.Home(b)
    requires if k < |ws| then forall i :: 0 <= i < |lh| && lh[i] == b ==> v == c[g.start + 1 + i] else v == c[b]
    ensures forall i :: 0 <= i < |lh| && lh[i] == b ==> v == data[i]
  {
    forall i | 0 <= i < |lh| && lh[i] == b ensures v == data[i] {
      if k < |ws| {
        CutSlot(g, d, lh, data, ws, k, i);
      } else {
        assert ws[..k] == ws;
        CutInstalled(g, d, lh, data, ws, i);
      }
    }
  }

  /** Crash atomicity. commit() crashes after any k of its one-block writes, and each of any
      number of recoveries crashes anywhere too; once one recovery finishes, the home blocks
      are all old or all new, and all new exactly when the header write (the write number
      |lh| + 1) reached the disk. */
  lemma CrashAtomicity(g: Geometry, d: seq<Block>, lh: seq<word>, data: seq<Block>, k: nat, crashes: seq<nat>)
    requires Fits(g, d, lh) && |data| == |lh| && lh != [] && Distinct(lh)
    requires HeadFits(g, d) && Head(d[g.start]) == []
    requires k <= |CommitWrites(g, d, lh, data)|
    ensures HeadFits(g, CommitCut(g, d, lh, data, k))
    ensures var final := Recovered(g, AfterCrashes(g, CommitCut(g, d, lh, data, k), crashes));
      && HeadFits(g, final) && Head(final[g.start]) == []
      && (k <= |lh| ==> SameHome(g, final, d))
      && (k > |lh| ==> NewHome(g, d, lh, data, final))
  {
    CommitCutRecovers(g, d, lh, data, k);
    var c := CommitCut(g, d, lh, data, k);
    CrashingRecoveryConverges(g, c, crashes);
    RecoveredIsClean(g, AfterCrashes(g, c, crashes));
  }
}
