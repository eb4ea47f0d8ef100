/** The functions of log.c as they run: the in-memory log updated in place, with every
    one-block disk write recorded in `trace`. Clean cached buffers equal the disk
    (see LogMachine), so only the buffers pinned by B_DIRTY are kept in `cache`. */
module LogCode {
  import opened Words
  import opened Log

  /** begin_op's test that one more operation cannot exhaust the log. */
  predicate Admits(n: nat, outstanding: nat) {
    n + (outstanding + 1) * MAXOPBLOCKS <= LOGSIZE
  }

  /** Operations inside may have `left` blocks of their allowances left together. */
  ghost predicate MayRemain(outstanding: nat, left: nat) {
    left <= outstanding * MAXOPBLOCKS
  }

  /** log_write's "too big a transaction" test, which precedes absorption. */
  predicate TooBig(g: Geometry, n: nat) {
    n >= LOGSIZE || n >= g.size - 1
  }

  /** The header after logging block b: absorbed if already there. */
  function Absorb(lh: seq<word>, b: word): (r: seq<word>)
    ensures b in r && lh <= r
    ensures Distinct(lh) ==> Distinct(r)
    ensures forall x :: x in r <==> x in lh || x == b
  {
    assert (lh + [b])[..|lh|] == lh;
    if b in lh then lh else lh + [b]
  }

  /** The pinned copies of the logged blocks. */
  function Pinned(cache: map<word, Block>, lh: seq<word>): (data: seq<Block>)
    requires forall i :: 0 <= i < |lh| ==> lh[i] in cache
    ensures |data| == |lh|
  {
    if lh == [] then [] else Pinned(cache, lh[..|lh| - 1]) + [cache[lh[|lh| - 1]]]
  }

  lemma {:induction false} PinnedAt(cache: map<word, Block>, lh: seq<word>, i: nat)
    requires i < |lh| && forall i :: 0 <= i < |lh| ==> lh[i] in cache
    ensures Pinned(cache, lh)[i] == cache[lh[i]]
  {
    if i < |lh| - 1 { PinnedAt(cache, lh[..|lh| - 1], i); }
  }

  /** The disk with `data` in the first slots of the log. */
  function WithSlots(d: seq<Block>, start: nat, data: seq<Block>): (r: seq<Block>)
    ensures |r| == |d|
  {
    if data == [] then d else
    Put(WithSlots(d, start, data[..|data| - 1]), Write(start + |data|, data[|data| - 1]))
  }

  lemma {:induction false} SlotsAreApplied(d: seq<Block>, start: nat, data: seq<Block>)
    requires start + |data| < |d|
    ensures Apply(d, SlotWrites(start, data)) == WithSlots(d, start, data)
    ensures WithSlots(d, start, data)[..start + 1] == d[..start + 1]
    ensures WithSlots(d, start, data)[start + 1..start + 1 + |data|] == data
  {
    if data != [] {
      var ws := SlotWrites(start, data);
      assert ws[..|ws| - 1] == SlotWrites(start, data[..|data| - 1]);
      SlotsAreApplied(d, start, data[..|data| - 1]);
      var before := WithSlots(d, start, data[..|data| - 1]);
      assert before[start + 1..start + |data|] == data[..|data| - 1];
      assert WithSlots(d, start, data)[start + 1..start + 1 + |data|]
        == before[start + 1..start + |data|] + [data[|data| - 1]];
    }
  }

  /** The disk with `data` at the home blocks lh. */
  function Installed(d: seq<Block>, lh: seq<word>, data: seq<Block>): (r: seq<Block>)
    requires |lh| == |data|
    ensures |r| == |d|
  {
    if lh == [] then d else
    Put(Installed(d, lh[..|lh| - 1], data[..|lh| - 1]), Write(lh[|lh| - 1], data[|lh| - 1]))
  }

  lemma {:induction false} InstalledIsApplied(d: seq<Block>, lh: seq<word>, data: seq<Block>)
    requires |lh| == |data|
    ensures Apply(d, HomeWrites(lh, data)) == Installed(d, lh, data)
  {
    if lh != [] {
      var ws := HomeWrites(lh, data);
      assert ws[..|ws| - 1] == HomeWrites(lh[..|lh| - 1], data[..|lh| - 1]);
      InstalledIsApplied(d, lh[..|lh| - 1], data[..|lh| - 1]);
    }
  }

  lemma {:induction false} InstalledKeeps(d: seq<Block>, lh: seq<word>, data: seq<Block>, b: nat)
    requires |lh| == |data| && b < |d| && b !in lh
    ensures Installed(d, lh, data)[b] == d[b]
  {
    if lh != [] { InstalledKeeps(d, lh[..|lh| - 1], data[..|lh| - 1], b); }
  }

  /** One more block installed. */
  lemma InstallNext(d: seq<Block>, cache: map<word, Block>, lh: seq<word>, data: seq<Block>, t: nat)
    requires |lh| == |data| && t < |lh|
    ensures HomeWrites(lh[..t + 1], data[..t + 1]) == HomeWrites(lh[..t], data[..t]) + [Write(lh[t], data[t])]
    ensures Installed(d, lh[..t + 1], data[..t + 1]) == Put(Installed(d, lh[..t], data[..t]), Write(lh[t], data[t]))
    ensures Unpin(cache, lh[..t + 1]) == Unpin(cache, lh[..t]) - {lh[t]}
  {
    assert lh[..t + 1][..t] == lh[..t] && data[..t + 1][..t] == data[..t];
  }

  /** The log after write_log and the committing write_head. */
  lemma SlotsAfterHead(g: Geometry, d: seq<Block>, data: seq<Block>, head: Block)
    requires g.start + |data| < |d|
    ensures WithSlots(d, g.start, data)[g.start] == d[g.start]
    ensures Slots(g, WithSlots(d, g.start, data)[g.start := head], |data|) == data
  {
    var r := WithSlots(d, g.start, data);
    SlotsAreApplied(d, g.start, data);
    assert r[g.start] == r[..g.start + 1][g.start] == d[..g.start + 1][g.start];
    assert Slots(g, r[g.start := head], |data|) == r[g.start + 1..g.start + 1 + |data|];
  }

  /** commit()'s stages, one after the other, are its writes in order. */
  lemma CommitInStages(g: Geometry, d: seq<Block>, lh: seq<word>, data: seq<Block>,
                       logged: seq<Block>, headed: seq<Block>, installed: seq<Block>)
    requires Fits(g, d, lh) && lh != [] && |lh| == |data|
    requires logged == WithSlots(d, g.start, data)
    requires headed == logged[g.start := SetHead(logged[g.start], lh)]
    requires installed == Installed(headed, lh, Slots(g, headed, |lh|))
    requires installed[g.start] == headed[g.start]
    ensures SlotWrites(g.start, data) + [Write(g.start, SetHead(logged[g.start], lh))]
      + HomeWrites(lh, Slots(g, headed, |lh|)) + [Write(g.start, SetHead(installed[g.start], []))]
      == CommitWrites(g, d, lh, data)
    ensures installed[g.start := SetHead(installed[g.start], [])] == Apply(d, CommitWrites(g, d, lh, data))
  {
    var slots, home := SlotWrites(g.start, data), HomeWrites(lh, data);
    var head := Write(g.start, SetHead(d[g.start], lh));
    var erase := Write(g.start, SetHead(head.data, []));
    SlotsAreApplied(d, g.start, data);
    SlotsAfterHead(g, d, data, head.data);
    InstalledIsApplied(headed, lh, data);
    ApplyOneMore(d, slots, head);
    ApplyAppend(d, slots + [head], home);
    ApplyOneMore(d, slots + [head] + home, erase);
  }

  lemma ConcatStages(t: seq<Write>, a: seq<Write>, b: Write, c: seq<Write>, e: Write)
    ensures t + a + [b] + c + [e] == t + (a + [b] + c + [e])
  {
  }

  lemma ApplyOneMore(d: seq<Block>, ws: seq<Write>, w: Write)
    ensures Apply(d, ws + [w]) == Put(Apply(d, ws), w)
  {
    assert (ws + [w])[..|ws|] == ws;
  }

  /** Writing the blocks lh unpins their buffers. */
  function Unpin(cache: map<word, Block>, lh: seq<word>): (r: map<word, Block>) {
    if lh == [] then cache else Unpin(cache, lh[..|lh| - 1]) - {lh[|lh| - 1]}
  }

  /** Exactly the buffers of lh are unpinned; the others keep their data. */
  lemma {:induction false} UnpinsExactly(cache: map<word, Block>, lh: seq<word>)
    ensures forall b :: b in Unpin(cache, lh) <==> b in cache && b !in lh
    ensures forall b :: b in Unpin(cache, lh) ==> Unpin(cache, lh)[b] == cache[b]
  {
    if lh != [] { UnpinsExactly(cache, lh[..|lh| - 1]); }
  }

  /** The slot that install_trans reads next is not cached and still holds what it held. */
  lemma SlotKept(g: Geometry, d: seq<Block>, cache: map<word, Block>, lh: seq<word>, data: seq<Block>, t: nat)
    requires Fits(g, d, lh) && |data| == |lh| && t < |lh| && forall b :: b in cache ==> g.Home(b)
    ensures g.start + t + 1 !in Unpin(cache, lh[..t]) && Installed(d, lh[..t], data[..t])[g.start + t + 1] == d[g.start + t + 1]
  {
    UnpinsExactly(cache, lh[..t]);
    InstalledKeeps(d, lh[..t], data[..t], g.start + t + 1);
  }

  lemma InstallEnds(g: Geometry, d: seq<Block>, cache: map<word, Block>, lh: seq<word>, data: seq<Block>)
    requires Fits(g, d, lh) && |data| == |lh| && forall b :: b in cache ==> g.Home(b)
    ensures (forall b :: b in Unpin(cache, lh) ==> g.Home(b)) && Installed(d, lh, data)[g.start] == d[g.start]
  {
    UnpinsExactly(cache, lh);
    InstalledKeeps(d, lh, data, g.start);
  }

  class InMemoryLog {
    const g: Geometry
    var outstanding: nat
    var committing: bool
    var lh: seq<word>
    var disk: seq<Block>
    var cache: map<word, Block>
    ghost var trace: seq<Write>

    ghost predicate Valid()
      reads this
    {
      && Fits(g, disk, lh)
      && (forall b :: b in cache ==> g.Home(b))
    }

    /** Every logged block is pinned in the cache. */
    ghost predicate AllPinned()
      reads this
    {
      forall i :: 0 <= i < |lh| ==> lh[i] in cache
    }

    /** Whoever logged something is still inside, or the last one out is committing it alone. */
    ghost predicate Attended()
      reads this
    {
      (committing ==> outstanding == 0) && (lh != [] ==> committing || outstanding > 0)
    }

    method Bread(b: word) returns (data: Block)
      requires b < |disk|
      ensures data == if b in cache then cache[b] else disk[b]
    {
      data := if b in cache then cache[b] else disk[b];
    }

    /** One block reaches the disk; iderw clears B_DIRTY, which unpins the buffer. */
    method Bwrite(b: word, data: Block)
      requires b < |disk|
      modifies `disk, `cache, `trace
      ensures trace == old(trace) + [Write(b, data)]
      ensures disk == old(disk)[b := data]
      ensures cache == old(cache) - {b}
    {
      disk := disk[b := data];
      cache := cache - {b};
      trace := trace + [Write(b, data)];
    }

    method WriteLog()
      requires Valid() && AllPinned()
      modifies `disk, `cache, `trace
      ensures Valid() && cache == old(cache)
      ensures trace == old(trace) + SlotWrites(g.start, Pinned(cache, lh))
      ensures disk == WithSlots(old(disk), g.start, Pinned(cache, lh))
    {
      ghost var data := Pinned(cache, lh);
      for tail := 0 to |lh|
        invariant |disk| == g.nblocks && cache == old(cache)
        invariant trace == old(trace) + SlotWrites(g.start, data[..tail])
        invariant disk == WithSlots(old(disk), g.start, data[..tail])
      {
        var block := Bread(lh[tail]);
        PinnedAt(cache, lh, tail);
        Bwrite(g.start + tail + 1, block);
        assert data[..tail + 1][..tail] == data[..tail];
      }
      assert data[..|lh|] == data;
    }

    method WriteHead()
      requires Valid()
      modifies `disk, `cache, `trace
      ensures Valid() && cache == old(cache)
      ensures trace == old(trace) + [Write(g.start, SetHead(old(disk)[g.start], lh))]
      ensures disk == old(disk)[g.start := SetHead(old(disk)[g.start], lh)]
    {
      var buf := Bread(g.start);
      var hb := buf.w[0 := |lh|];
      for i := 0 to |lh|
        invariant |hb| == NWORDS
        invariant hb == [|lh| as word] + lh[..i] + buf.w[1 + i..]
      {
        hb := hb[1 + i := lh[i]];
      }
      assert lh[..|lh|] == lh;
      Bwrite(g.start, Words(hb));
      assert cache == old(cache);
    }

    method ReadHead()
      requires HeadFits(g, disk) && g.start !in cache
      modifies `lh
      ensures lh == Head(disk[g.start])
    {
      var buf := Bread(g.start);
      lh := [];
      for i := 0 to buf.w[0]
        invariant lh == buf.w[1..1 + i]
      {
        lh := lh + [buf.w[1 + i]];
      }
    }

    method InstallTrans()
      requires Valid()
      modifies `disk, `cache, `trace
      ensures Valid() && cache == Unpin(old(cache), lh)
      ensures trace == old(trace) + HomeWrites(lh, Slots(g, old(disk), |lh|))
      ensures disk == Installed(old(disk), lh, Slots(g, old(disk), |lh|))
      ensures disk[g.start] == old(disk)[g.start]
    {
      ghost var data := Slots(g, disk, |lh|);
      for tail := 0 to |lh|
        invariant |disk| == g.nblocks && cache == Unpin(old(cache), lh[..tail])
        invariant trace == old(trace) + HomeWrites(lh[..tail], data[..tail])
        invariant disk == Installed(old(disk), lh[..tail], data[..tail])
      {
        SlotKept(g, old(disk), old(cache), lh, data, tail);
        var block := Bread(g.start + tail + 1);
        InstallNext(old(disk), old(cache), lh, data, tail);
        Bwrite(lh[tail], block);
      }
      assert data[..|lh|] == data && lh[..|lh|] == lh;
      InstallEnds(g, old(disk), old(cache), lh, data);
    }

    /** The writes commit() performs are exactly those CrashAtomicity is about. */
    method Commit()
      requires Valid() && AllPinned()
      modifies `disk, `cache, `trace, `lh
      ensures Valid() && lh == [] && cache == Unpin(old(cache), old(lh))
      ensures trace == old(trace) + CommitWrites(g, old(disk), old(lh), Pinned(old(cache), old(lh)))
      ensures disk == Apply(old(disk), CommitWrites(g, old(disk), old(lh), Pinned(old(cache), old(lh))))
    {
      if |lh| > 0 {
        WriteLog();
        ghost var logged := disk;
        WriteHead();
        ghost var headed := disk;
        InstallTrans();
        ghost var installed := disk;
        lh := [];
        WriteHead();
        ghost var data := Pinned(old(cache), old(lh));
        ConcatStages(old(trace), SlotWrites(g.start, data), Write(g.start, SetHead(logged[g.start], old(lh))),
                     HomeWrites(old(lh), Slots(g, headed, |old(lh)|)), Write(g.start, SetHead(installed[g.start], [])));
        CommitInStages(g, old(disk), old(lh), data, logged, headed, installed);
      }
    }

    /** The writes recovery performs are exactly those RecoveryRestarts is about. */
    method RecoverFromLog()
      requires HeadFits(g, disk) && cache == map[]
      modifies `disk, `cache, `trace, `lh
      ensures Valid() && lh == [] && cache == map[]
      ensures trace == old(trace) + RecoverWrites(g, old(disk))
      ensures disk == Recovered(g, old(disk))
    {
      ReadHead();
      InstallTrans();
      lh := [];
      WriteHead();
      ghost var found := Head(old(disk)[g.start]);
      ghost var data := Slots(g, old(disk), |found|);
      InstalledIsApplied(old(disk), found, data);
      UnpinsExactly(map[], found);
      ApplyOneMore(old(disk), HomeWrites(found, data), Write(g.start, SetHead(old(disk)[g.start], [])));
    }

    /** One pass of begin_op's loop. The newcomer is let in exactly when no commit is in progress
        and its whole allowance fits however much of theirs the others have left; a refused
        caller, who sleeps, leaves somebody behind whose end_op will wake it. */
    method TryBeginOp() returns (admitted: bool)
      modifies `outstanding
      ensures outstanding == old(outstanding) + if admitted then 1 else 0
      ensures admitted <==> !committing && forall left :: MayRemain(old(outstanding), left) ==>
        |lh| + left + MAXOPBLOCKS <= LOGSIZE
      ensures old(Attended()) ==> Attended() && (!admitted ==> committing || outstanding > 0)
    {
      if committing {
        admitted := false;
      } else if |lh| + (outstanding + 1) * MAXOPBLOCKS > LOGSIZE {
        assert MayRemain(outstanding, outstanding * MAXOPBLOCKS);
        admitted := false;
      } else {
        outstanding := outstanding + 1;
        admitted := true;
      }
    }

    /** end_op up to the commit. Its panic cannot happen, exactly the last operation out takes the
        log for itself, and otherwise somebody is left who will. */
    method LeaveOp() returns (panicked: bool, doCommit: bool)
      requires outstanding > 0
      modifies `outstanding, `committing
      ensures outstanding == old(outstanding) - 1 && panicked == old(committing)
      ensures old(Attended()) ==> !panicked && Attended() && committing == doCommit && (doCommit <==> outstanding == 0)
      ensures panicked ==> committing && !doCommit
    {
      outstanding := outstanding - 1;
      panicked := committing;
      doCommit := false;
      if !panicked && outstanding == 0 {
        doCommit := true;
        committing := true;
      }
    }

    /** The rest of end_op for the committer. */
    method CommitAndReopen()
      requires Valid() && AllPinned() && committing
      modifies `disk, `cache, `trace, `lh, `committing
      ensures Valid() && lh == [] && !committing && Attended()
      ensures disk == Apply(old(disk), CommitWrites(g, old(disk), old(lh), Pinned(old(cache), old(lh))))
    {
      Commit();
      committing := false;
    }

    /** log_write of a buffer holding `data` for block b. */
    method LogWrite(b: word, data: Block) returns (panicked: bool)
      requires Valid() && AllPinned() && g.Home(b)
      modifies `lh, `cache
      ensures panicked == (TooBig(g, |old(lh)|) || outstanding < 1)
      ensures panicked ==> lh == old(lh) && cache == old(cache)
      ensures old(Attended()) ==> Attended()
      ensures !panicked ==> Valid() && AllPinned() && lh == Absorb(old(lh), b) && cache == old(cache)[b := data]
    {
      if |lh| >= LOGSIZE || |lh| >= g.size - 1 {
        return true;
      }
      if outstanding < 1 {
        return true;
      }
      var i := 0;
      while i < |lh|
        invariant i <= |lh| && b !in lh[..i]
      {
        if lh[i] == b {
          break;
        }
        i := i + 1;
      }
      if i < |lh| {
        lh := lh[i := b];
      } else {
        lh := lh + [b];
      }
      cache := cache[b := data];
      panicked := false;
    }
  }
}
