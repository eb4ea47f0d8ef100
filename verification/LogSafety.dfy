/** The invariant of the log machine, in three independent parts: what the cache and the disk
    hold, what the history says, and how much log space the operations have reserved. Every
    step keeps each part. */
module LogSafety {
  import opened Options
  import opened Words
  import opened Log
  import opened LogCode
  import opened LogMachine

  // ---------------------------------------------------------------- disk

  /** The header block on the disk names the transaction exactly between the two header writes. */
  ghost predicate Named(pc: PC) {
    pc.Install? || pc.EraseHead? || pc.Recovering()
  }

  /** How many of the n logged blocks are already installed. */
  ghost function InstalledCount(pc: PC, n: nat): nat {
    if pc.Install? || pc.RecInstall? then pc.t else if pc.EraseHead? || pc.RecErase? then n else 0
  }

  /** How many of the n logged blocks are already copied to their slots. */
  ghost function CopiedCount(pc: PC, n: nat): nat {
    if pc.WriteLog? then pc.t else if pc.WriteHead? || Named(pc) then n else 0
  }

  ghost predicate HeaderInv<B>(lh: seq<word>, pc: PC, disk: Disk<B>) {
    && Distinct(lh) && |lh| <= LOGSIZE && |lh| <= |disk.slots|
    && (forall i :: 0 <= i < |lh| ==> lh[i] in disk.home)
    && (pc.Install? || pc.RecInstall? || pc.WriteLog? ==> pc.t < |lh|)
    && (pc.Reopen? ==> lh == [])
    && (pc.WriteHead? ==> lh != [])
    && disk.head == if Named(pc) then lh else []
  }

  /** The disk holds: the durable image at home, except at logged blocks once the header names
      them; the logged blocks in their slots as far as copied; and at home as far as installed. */
  ghost predicate DiskInv<B>(lh: seq<word>, pc: PC, disk: Disk<B>, image: Image<B>, durable: Image<B>) {
    && HeaderInv(lh, pc, disk) && image.Keys == durable.Keys == disk.home.Keys
    && (forall b :: b in disk.home && (Named(pc) ==> b !in lh) ==> disk.home[b] == durable[b])
    && (forall i :: 0 <= i < CopiedCount(pc, |lh|) ==> disk.slots[i] == image[lh[i]])
    && (forall i :: 0 <= i < InstalledCount(pc, |lh|) ==> disk.home[lh[i]] == image[lh[i]])
    && (if pc.Running? || pc.WriteLog? || pc.WriteHead?
        then forall b :: b in image && b !in lh ==> image[b] == durable[b]
        else image == durable)
  }

  // ---------------------------------------------------------------- cache

  /** A cached block nobody is changing holds what was last logged for it; a clean one also
      equals the disk; only pinned blocks are dirty. */
  ghost predicate BufInv<B>(pinned: seq<word>, ops: seq<OpState>, home: Image<B>, image: Image<B>, b: word, buf: Buf<B>) {
    && b in home && b in image
    && (!buf.dirty && !buf.touched ==> buf.data == home[b])
    && (!buf.touched ==> buf.data == image[b])
    && (buf.touched ==> buf.holder.Some? && Active(ops, buf.holder.value))
    && (buf.dirty ==> b in pinned)
  }

  /** Cache agreement. `pinned` are the logged blocks not yet installed. */
  ghost predicate CacheInv<B>(pinned: seq<word>, ops: seq<OpState>, home: Image<B>, image: Image<B>, cache: map<word, Buf<B>>) {
    && home.Keys == image.Keys
    && (forall b :: b in cache ==> BufInv(pinned, ops, home, image, b, cache[b]))
    && (forall b :: b in pinned ==> b in cache && cache[b].dirty)
    && (forall b :: b in home && b !in cache ==> home[b] == image[b])
  }

  ghost function PinnedBlocks(lh: seq<word>, pc: PC): seq<word> {
    if InstalledCount(pc, |lh|) <= |lh| then lh[InstalledCount(pc, |lh|)..] else []
  }

  ghost predicate DataInv<B>(s: State<B>) {
    && DiskInv(s.lh, s.pc, s.disk, s.hist.image, s.hist.durable)
    && (if s.pc.Recovering() then s.cache == map[]
        else CacheInv(PinnedBlocks(s.lh, s.pc), s.ops, s.disk.home, s.hist.image, s.cache))
  }

  // ---------------------------------------------------------------- history

  ghost predicate HistInv<B>(base: Image<B>, h: History<B>) {
    && WellFormed(h.events) && h.commits != []
    && (forall i :: 0 <= i < |h.commits| ==> h.commits[i] <= h.commits[|h.commits| - 1] && Quiet(h.events, h.commits[i]))
    && h.image == Replay(base, h.events)
    && h.durable == Replay(base, h.events[..Durable(h)])
  }

  /** At point c of the history no operation is open. */
  ghost predicate Quiet<B>(evs: seq<Event<B>>, c: nat) {
    c <= |evs| && OpenOps(evs[..c]) == {}
  }

  ghost predicate DistinctIds(ops: seq<OpState>) {
    ops == [] || (DistinctIds(ops[..|ops| - 1]) && !Active(ops[..|ops| - 1], ops[|ops| - 1].id))
  }

  ghost predicate OpsInv<B>(s: State<B>) {
    && DistinctIds(s.ops)
    && (forall id :: id in OpenOps(s.hist.events) <==> Active(s.ops, id))
    && (!s.pc.Running? ==> s.ops == [])
    && (s.pc.Running? && s.ops == [] ==> s.lh == [])
    && (s.ops == [] && !s.pc.WriteLog? && !s.pc.WriteHead? ==> Durable(s.hist) == |s.hist.events|)
  }

  // ---------------------------------------------------------------- reservation

  /** How many more distinct blocks the active operations may log. */
  ghost function Unspent(ops: seq<OpState>): int {
    if ops == [] then 0 else Unspent(ops[..|ops| - 1]) + MAXOPBLOCKS - |ops[|ops| - 1].spent|
  }

  ghost predicate SpentLogged(lh: seq<word>, o: OpState) {
    |o.spent| <= MAXOPBLOCKS && forall b :: b in o.spent ==> b in lh
  }

  ghost predicate BudgetInv<B>(s: State<B>) {
    && s.outstanding == |s.ops|
    && s.committing == s.pc.Committing()
    && (forall k :: 0 <= k < |s.ops| ==> SpentLogged(s.lh, s.ops[k]))
    && |s.lh| + Unspent(s.ops) <= LOGSIZE
  }

  ghost predicate Inv<B>(base: Image<B>, s: State<B>) {
    DataInv(s) && HistInv(base, s.hist) && OpsInv(s) && BudgetInv(s)
  }

  // ---------------------------------------------------------------- lemmas about operations

  lemma UnspentAppend(ops: seq<OpState>, o: OpState)
    ensures Unspent(ops + [o]) == Unspent(ops) + MAXOPBLOCKS - |o.spent|
  {
    assert (ops + [o])[..|ops|] == ops;
  }

  lemma {:induction false} UnspentUpdate(ops: seq<OpState>, k: nat, o: OpState)
    requires k < |ops|
    ensures Unspent(ops[k := o]) == Unspent(ops) + |ops[k].spent| - |o.spent|
  {
    var init := ops[..|ops| - 1];
    if k == |init| {
      assert ops[k := o][..|init|] == init;
    } else {
      assert ops[k := o][..|init|] == init[k := o];
      UnspentUpdate(init, k, o);
    }
  }

  lemma {:induction false} UnspentRemove(ops: seq<OpState>, k: nat)
    requires k < |ops|
    ensures Unspent(ops[..k] + ops[k + 1..]) == Unspent(ops) - MAXOPBLOCKS + |ops[k].spent|
  {
    var init := ops[..|ops| - 1];
    if k == |init| {
      assert ops[..k] + ops[k + 1..] == init;
    } else {
      assert (ops[..k] + ops[k + 1..])[..|init| - 1] == init[..k] + init[k + 1..];
      UnspentRemove(init, k);
    }
  }

  lemma {:induction false} UnspentBounds(ops: seq<OpState>)
    requires forall k :: 0 <= k < |ops| ==> |ops[k].spent| <= MAXOPBLOCKS
    ensures 0 <= Unspent(ops) <= |ops| * MAXOPBLOCKS
  {
    if ops != [] { UnspentBounds(ops[..|ops| - 1]); }
  }

  /** Updates that keep the identities keep who is active. */
  lemma {:induction false} SameIds(ops: seq<OpState>, k: nat, o: OpState)
    requires k < |ops| && o.id == ops[k].id
    ensures forall id :: Active(ops, id) <==> Active(ops[k := o], id)
    ensures DistinctIds(ops) ==> DistinctIds(ops[k := o])
  {
    var ops' := ops[k := o];
    forall id ensures Active(ops, id) <==> Active(ops', id) {
      if Active(ops, id) {
        var i :| 0 <= i < |ops| && ops[i].id == id;
        assert ops'[i].id == id;
      }
      if Active(ops', id) {
        var i :| 0 <= i < |ops| && ops'[i].id == id;
        assert ops[i].id == id;
      }
    }
    var init := ops[..|ops| - 1];
    if k < |init| {
      assert ops'[..|init|] == init[k := o];
      SameIds(init, k, o);
    } else {
      assert ops'[..|init|] == init;
    }
  }

  lemma ActiveAppend(ops: seq<OpState>, o: OpState)
    ensures forall id :: Active(ops + [o], id) <==> Active(ops, id) || id == o.id
    ensures DistinctIds(ops) && !Active(ops, o.id) ==> DistinctIds(ops + [o])
  {
    assert (ops + [o])[..|ops|] == ops;
    forall id ensures Active(ops + [o], id) <==> Active(ops, id) || id == o.id {
      if Active(ops, id) {
        var k :| 0 <= k < |ops| && ops[k].id == id;
        assert (ops + [o])[k].id == id;
      }
      if id == o.id { assert (ops + [o])[|ops|].id == id; }
    }
  }

  lemma {:induction false} ActiveRemove(ops: seq<OpState>, k: nat)
    requires k < |ops| && DistinctIds(ops)
    ensures DistinctIds(ops[..k] + ops[k + 1..])
    ensures forall id :: Active(ops[..k] + ops[k + 1..], id) <==> Active(ops, id) && id != ops[k].id
  {
    var init, last := ops[..|ops| - 1], ops[|ops| - 1];
    assert ops == init + [last];
    ActiveAppend(init, last);
    if k == |init| {
      assert ops[..k] + ops[k + 1..] == init;
    } else {
      ActiveRemove(init, k);
      var rest := init[..k] + init[k + 1..];
      assert ops[..k] + ops[k + 1..] == rest + [last];
      assert Active(init, init[k].id);
      ActiveAppend(rest, last);
    }
  }

  lemma {:induction false} OpenImpliesSeen<B>(evs: seq<Event<B>>, op: nat)
    requires op in OpenOps(evs)
    ensures Seen(evs, op)
  {
    if evs[|evs| - 1].op != op {
      OpenImpliesSeen(evs[..|evs| - 1], op);
      var i :| 0 <= i < |evs| - 1 && evs[..|evs| - 1][i].op == op;
      assert evs[i].op == op;
    } else {
      assert evs[|evs| - 1].op == op;
    }
  }

  lemma SetPlusOne(a: set<word>, b: word)
    ensures |a + {b}| == if b in a then |a| else |a| + 1
  {
    if b in a { assert a + {b} == a; }
  }

  // ---------------------------------------------------------------- history steps

  lemma DurableIs<B>(base: Image<B>, h: History<B>)
    requires HistInv(base, h)
    ensures Durable(h) == h.commits[|h.commits| - 1] && Quiet(h.events, Durable(h))
  {
    assert Quiet(h.events, h.commits[|h.commits| - 1]);
  }

  lemma RecordKeepsHist<B>(base: Image<B>, h: History<B>, e: Event<B>)
    requires HistInv(base, h) && MayFollow(h.events, e)
    ensures HistInv(base, Record(h, e)) && Durable(Record(h, e)) == Durable(h)
    ensures OpenOps(Record(h, e).events) == OpenAfter(OpenOps(h.events), e)
  {
    HistoryGrows(base, h.events, e);
    DurableIs(base, h);
    forall i | 0 <= i < |h.commits| ensures Quiet(h.events + [e], h.commits[i]) {
      assert Quiet(h.events, h.commits[i]);
      assert (h.events + [e])[..h.commits[i]] == h.events[..h.commits[i]];
    }
    assert (h.events + [e])[..Durable(h)] == h.events[..Durable(h)];
  }

  lemma HardenKeepsHist<B>(base: Image<B>, h: History<B>)
    requires HistInv(base, h) && OpenOps(h.events) == {}
    ensures HistInv(base, Harden(h)) && Durable(Harden(h)) == |h.events|
  {
    var r := Harden(h);
    assert h.events[..|h.events|] == h.events;
    forall i | 0 <= i < |r.commits| ensures r.commits[i] <= |h.events| && Quiet(r.events, r.commits[i]) {
      if i < |h.commits| { assert Quiet(h.events, h.commits[i]); }
    }
  }

  lemma LoseKeepsHist<B>(base: Image<B>, h: History<B>)
    requires HistInv(base, h)
    ensures HistInv(base, Lose(h)) && Durable(Lose(h)) == |Lose(h).events| && OpenOps(Lose(h).events) == {}
  {
    var r := Lose(h);
    DurableIs(base, h);
    WellFormedPrefix(h.events, Durable(h));
    forall i | 0 <= i < |h.commits| ensures Quiet(r.events, r.commits[i]) {
      assert Quiet(h.events, h.commits[i]);
      assert r.events[..h.commits[i]] == h.events[..h.commits[i]];
    }
    assert r.events[..Durable(h)] == r.events;
  }

  // ---------------------------------------------------------------- steps of operations

  /** The cache keeps agreeing when the operations change but the ones holding changed buffers stay. */
  lemma CacheOpsFrame<B>(pinned: seq<word>, ops: seq<OpState>, home: Image<B>, image: Image<B>,
                      cache: map<word, Buf<B>>, ops': seq<OpState>)
    requires CacheInv(pinned, ops, home, image, cache)
    requires forall b, id :: b in cache && cache[b].holder == Some(id) && Active(ops, id) ==> Active(ops', id)
    ensures CacheInv(pinned, ops', home, image, cache)
  {
    forall b | b in cache ensures BufInv(pinned, ops', home, image, b, cache[b]) {
      assert BufInv(pinned, ops, home, image, b, cache[b]);
    }
  }

  /** One buffer changes, without changing what is pinned. */
  lemma CacheUpdate<B>(pinned: seq<word>, ops: seq<OpState>, home: Image<B>, image: Image<B>,
                    cache: map<word, Buf<B>>, b: word, buf: Buf<B>)
    requires CacheInv(pinned, ops, home, image, cache)
    requires BufInv(pinned, ops, home, image, b, buf)
    requires buf.dirty == (b in cache && cache[b].dirty)
    ensures CacheInv(pinned, ops, home, image, cache[b := buf])
  {
  }

  /** A clean buffer leaves the cache. */
  lemma CacheEvict<B>(pinned: seq<word>, ops: seq<OpState>, home: Image<B>, image: Image<B>,
                   cache: map<word, Buf<B>>, b: word)
    requires CacheInv(pinned, ops, home, image, cache)
    requires b in cache && !cache[b].dirty && !cache[b].touched
    ensures CacheInv(pinned, ops, home, image, cache - {b})
  {
    assert BufInv(pinned, ops, home, image, b, cache[b]);
  }

  /** A log_write pins its buffer and makes its data the block's logged contents. */
  lemma CacheLogged<B>(lh: seq<word>, ops: seq<OpState>, home: Image<B>, image: Image<B>,
                    cache: map<word, Buf<B>>, b: word)
    requires CacheInv(lh, ops, home, image, cache) && b in cache
    ensures CacheInv(Absorb(lh, b), ops, home, image[b := cache[b].data],
                     cache[b := cache[b].(dirty := true, touched := false)])
  {
    var lh', image' := Absorb(lh, b), image[b := cache[b].data];
    var cache' := cache[b := cache[b].(dirty := true, touched := false)];
    forall x | x in cache' ensures BufInv(lh', ops, home, image', x, cache'[x]) {
      assert BufInv(lh, ops, home, image, x, cache[x]);
    }
  }

  lemma BeginKeepsInv<B>(base: Image<B>, s: State<B>, op: nat, r: State<B>)
    requires Inv(base, s) && s.pc.Running? && Admits(|s.lh|, s.outstanding) && !Seen(s.hist.events, op)
    requires r == s.(outstanding := s.outstanding + 1, ops := s.ops + [OpState(op, {}, None)],
                     hist := Record(s.hist, BeginOp(op)))
    ensures Inv(base, r)
  {
    RecordKeepsHist(base, s.hist, BeginOp(op));
    BeginKeepsOps(s, op, r);
    BeginKeepsBudget(s, op, r);
    ActiveAppend(s.ops, OpState(op, {}, None));
    CacheOpsFrame(PinnedBlocks(s.lh, s.pc), s.ops, s.disk.home, s.hist.image, s.cache, r.ops);
  }

  lemma BeginKeepsOps<B>(s: State<B>, op: nat, r: State<B>)
    requires OpsInv(s) && s.pc.Running? && !Seen(s.hist.events, op)
    requires r.pc == s.pc && r.ops == s.ops + [OpState(op, {}, None)]
    requires OpenOps(r.hist.events) == OpenOps(s.hist.events) + {op}
    ensures OpsInv(r)
  {
    if Active(s.ops, op) { OpenImpliesSeen(s.hist.events, op); }
    ActiveAppend(s.ops, OpState(op, {}, None));
  }

  lemma BeginKeepsBudget<B>(s: State<B>, op: nat, r: State<B>)
    requires BudgetInv(s) && s.pc.Running? && Admits(|s.lh|, s.outstanding)
    requires r == s.(outstanding := s.outstanding + 1, ops := s.ops + [OpState(op, {}, None)], hist := r.hist)
    ensures BudgetInv(r)
  {
    UnspentAppend(s.ops, OpState(op, {}, None));
    UnspentBounds(s.ops);
  }

  lemma BreadKeepsInv<B>(base: Image<B>, s: State<B>, id: nat, b: word, r: State<B>)
    requires Inv(base, s) && !s.pc.Recovering() && b in s.disk.home
    requires b in s.cache ==> s.cache[b].holder.None?
    requires r == s.(cache := s.cache[b :=
      if b in s.cache then s.cache[b].(holder := Some(id)) else Buf(s.disk.home[b], false, Some(id), false)])
    ensures Inv(base, r)
  {
    CacheUpdate(PinnedBlocks(s.lh, s.pc), s.ops, s.disk.home, s.hist.image, s.cache, b, r.cache[b]);
  }

  lemma ModifyKeepsInv<B>(base: Image<B>, s: State<B>, k: nat, b: word, data: B, r: State<B>)
    requires Inv(base, s) && k < |s.ops| && b in s.cache && s.cache[b].holder == Some(s.ops[k].id)
    requires r == s.(cache := s.cache[b := s.cache[b].(data := data, touched := true)])
    ensures Inv(base, r)
  {
    assert Active(s.ops, s.ops[k].id);
    CacheUpdate(PinnedBlocks(s.lh, s.pc), s.ops, s.disk.home, s.hist.image, s.cache, b, r.cache[b]);
  }

  lemma BrelseKeepsInv<B>(base: Image<B>, s: State<B>, b: word, r: State<B>)
    requires Inv(base, s) && b in s.cache && !s.cache[b].touched
    requires r == s.(cache := s.cache[b := s.cache[b].(holder := None)])
    ensures Inv(base, r)
  {
    CacheUpdate(PinnedBlocks(s.lh, s.pc), s.ops, s.disk.home, s.hist.image, s.cache, b, r.cache[b]);
  }

  lemma EvictKeepsInv<B>(base: Image<B>, s: State<B>, b: word, r: State<B>)
    requires Inv(base, s) && b in s.cache && s.cache[b].holder.None? && !s.cache[b].dirty
    requires r == s.(cache := s.cache - {b})
    ensures Inv(base, r)
  {
    CacheEvict(PinnedBlocks(s.lh, s.pc), s.ops, s.disk.home, s.hist.image, s.cache, b);
  }

  lemma LogCheckKeepsInv<B>(base: Image<B>, s: State<B>, k: nat, b: word, r: State<B>)
    requires Inv(base, s) && k < |s.ops|
    requires r == s.(ops := s.ops[k := s.ops[k].(checked := Some(b))])
    ensures Inv(base, r)
  {
    SameIds(s.ops, k, r.ops[k]);
    UnspentUpdate(s.ops, k, r.ops[k]);
    CacheOpsFrame(PinnedBlocks(s.lh, s.pc), s.ops, s.disk.home, s.hist.image, s.cache, r.ops);
  }

  lemma LogAppendKeepsBudget<B>(s: State<B>, k: nat, b: word, r: State<B>)
    requires BudgetInv(s) && s.pc.Running? && k < |s.ops| && |s.ops[k].spent + {b}| <= MAXOPBLOCKS
    requires r == s.(lh := Absorb(s.lh, b), cache := r.cache, hist := r.hist,
                     ops := s.ops[k := OpState(s.ops[k].id, s.ops[k].spent + {b}, None)])
    ensures BudgetInv(r) && |r.lh| <= LOGSIZE
  {
    UnspentUpdate(s.ops, k, r.ops[k]);
    SetPlusOne(s.ops[k].spent, b);
    assert SpentLogged(s.lh, s.ops[k]);
    forall i | 0 <= i < |r.ops| ensures SpentLogged(r.lh, r.ops[i]) {
      assert SpentLogged(s.lh, s.ops[i]);
    }
    UnspentBounds(r.ops);
  }

  lemma LogAppendKeepsDisk<B>(lh: seq<word>, b: word, data: B, disk: Disk<B>, image: Image<B>, durable: Image<B>)
    requires DiskInv(lh, Running, disk, image, durable) && b in image && |Absorb(lh, b)| <= LOGSIZE && |Absorb(lh, b)| <= |disk.slots|
    ensures DiskInv(Absorb(lh, b), Running, disk, image[b := data], durable)
  {
    assert image[b := data].Keys == image.Keys;
  }

  lemma LogAppendKeepsInv<B>(base: Image<B>, s: State<B>, k: nat, b: word, r: State<B>)
    requires Inv(base, s) && k < |s.ops| && b in s.cache && |s.ops[k].spent + {b}| <= MAXOPBLOCKS
    requires |Absorb(s.lh, b)| <= |s.disk.slots|
    requires r == s.(lh := Absorb(s.lh, b),
         cache := s.cache[b := s.cache[b].(dirty := true, touched := false)],
         ops := s.ops[k := OpState(s.ops[k].id, s.ops[k].spent + {b}, None)],
         hist := Record(s.hist, Logged(s.ops[k].id, b, s.cache[b].data)))
    ensures Inv(base, r)
  {
    assert Active(s.ops, s.ops[k].id);
    RecordKeepsHist(base, s.hist, Logged(s.ops[k].id, b, s.cache[b].data));
    SameIds(s.ops, k, r.ops[k]);
    LogAppendKeepsBudget(s, k, b, r);
    LogAppendKeepsData(s, b, r);
  }

  lemma LogAppendKeepsData<B>(s: State<B>, b: word, r: State<B>)
    requires DataInv(s) && s.pc.Running? && b in s.cache && |Absorb(s.lh, b)| <= LOGSIZE && |Absorb(s.lh, b)| <= |s.disk.slots|
    requires r == s.(lh := Absorb(s.lh, b), ops := r.ops, hist := r.hist,
                     cache := s.cache[b := s.cache[b].(dirty := true, touched := false)])
    requires r.hist.image == s.hist.image[b := s.cache[b].data] && r.hist.durable == s.hist.durable
    requires forall id :: Active(s.ops, id) ==> Active(r.ops, id)
    ensures DataInv(r)
  {
    assert PinnedBlocks(s.lh, Running) == s.lh && PinnedBlocks(r.lh, Running) == r.lh;
    LogAppendKeepsCache(s.lh, s.ops, s.disk.home, s.hist.image, s.cache, b, r.ops);
    LogAppendKeepsDisk(s.lh, b, s.cache[b].data, s.disk, s.hist.image, s.hist.durable);
  }

  lemma LogAppendKeepsCache<B>(lh: seq<word>, ops: seq<OpState>, home: Image<B>, image: Image<B>,
                               cache: map<word, Buf<B>>, b: word, ops': seq<OpState>)
    requires CacheInv(lh, ops, home, image, cache) && b in cache && forall id :: Active(ops, id) ==> Active(ops', id)
    ensures b in image
    ensures CacheInv(Absorb(lh, b), ops', home, image[b := cache[b].data],
                     cache[b := cache[b].(dirty := true, touched := false)])
  {
    assert BufInv(lh, ops, home, image, b, cache[b]);
    CacheLogged(lh, ops, home, image, cache, b);
    CacheOpsFrame(Absorb(lh, b), ops, home, image[b := cache[b].data],
                  cache[b := cache[b].(dirty := true, touched := false)], ops');
  }

  // ---------------------------------------------------------------- end_op

  lemma EndKeepsBudget<B>(s: State<B>, k: nat, r: State<B>)
    requires BudgetInv(s) && s.pc.Running? && k < |s.ops|
    requires r == s.(outstanding := s.outstanding - 1, ops := s.ops[..k] + s.ops[k + 1..], hist := r.hist,
                     pc := r.pc, committing := r.committing)
    requires r.committing == r.pc.Committing()
    ensures BudgetInv(r)
  {
    UnspentRemove(s.ops, k);
    forall i | 0 <= i < |r.ops| ensures SpentLogged(r.lh, r.ops[i]) {
      assert r.ops[i] == s.ops[if i < k then i else i + 1];
    }
  }

  lemma EndKeepsOps<B>(s: State<B>, k: nat, r: State<B>)
    requires OpsInv(s) && k < |s.ops| && r.ops == s.ops[..k] + s.ops[k + 1..]
    requires OpenOps(r.hist.events) == OpenOps(s.hist.events) - {s.ops[k].id}
    requires r.ops == [] ==> r.pc == WriteLog(0) || (r.pc.Reopen? && Durable(r.hist) == |r.hist.events|)
    requires r.ops != [] ==> r.pc.Running?
    ensures OpsInv(r)
  {
    ActiveRemove(s.ops, k);
    forall id ensures id in OpenOps(r.hist.events) <==> Active(r.ops, id) {
      assert id in OpenOps(s.hist.events) <==> Active(s.ops, id);
    }
  }

  lemma LastOpClosesAll<B>(s: State<B>, k: nat)
    requires OpsInv(s) && k < |s.ops| == 1
    ensures OpenOps(s.hist.events) - {s.ops[k].id} == {}
  {
    forall id | id in OpenOps(s.hist.events) ensures id == s.ops[k].id {
      assert Active(s.ops, id);
    }
  }

  lemma EndKeepsInv<B>(base: Image<B>, s: State<B>, k: nat)
    requires Inv(base, s) && s.pc.Running? && k < |s.ops| && s.outstanding == |s.ops|
    requires forall b :: b in s.cache ==> s.cache[b].holder != Some(s.ops[k].id)
    ensures Inv(base, DoEnd(s, k))
  {
    var r := DoEnd(s, k);
    assert Active(s.ops, s.ops[k].id);
    RecordKeepsHist(base, s.hist, EndOp(s.ops[k].id));
    if r.pc.Reopen? {
      LastOpClosesAll(s, k);
      HardenKeepsHist(base, Record(s.hist, EndOp(s.ops[k].id)));
    }
    EndKeepsOps(s, k, r);
    EndKeepsBudget(s, k, r);
    ActiveRemove(s.ops, k);
    EndKeepsData(s, s.ops[k].id, r);
  }

  lemma EndKeepsData<B>(s: State<B>, id: nat, r: State<B>)
    requires DataInv(s) && s.pc.Running?
    requires forall b :: b in s.cache ==> s.cache[b].holder != Some(id)
    requires forall x :: Active(s.ops, x) && x != id ==> Active(r.ops, x)
    requires r == s.(outstanding := r.outstanding, ops := r.ops, hist := r.hist, pc := r.pc, committing := r.committing)
    requires r.hist.image == s.hist.image
    requires if r.pc.Reopen? then s.lh == [] && r.hist.durable == s.hist.image else r.hist.durable == s.hist.durable
    requires r.pc.Running? || r.pc.Reopen? || (r.pc == WriteLog(0) && s.lh != [])
    ensures DataInv(r)
  {
    CacheOpsFrame(PinnedBlocks(s.lh, s.pc), s.ops, s.disk.home, s.hist.image, s.cache, r.ops);
  }
}
