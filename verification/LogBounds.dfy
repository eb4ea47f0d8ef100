/** Where the bounds of log.c are needed: runs that fill the header, runs that overrun the log
    region, and exactly how large the region must be for neither to do harm. */
module LogBounds {
  import opened Options
  import opened Words
  import opened Log
  import opened LogCode
  import opened LogMachine
  import opened LogSafety
  import opened LogRuns

  // ---------------------------------------------------------------- reachable states

  ghost predicate Reaches<B(!new)>(g: Geometry, s: State<B>, r: State<B>) {
    exists steps :: Runs(g, s, steps) && Exec(g, s, steps) == r
  }

  lemma {:induction false} RunsAppend<B>(g: Geometry, s: State<B>, steps: seq<Step<B>>, last: Step<B>)
    requires Runs(g, s, steps) && Enabled(g, Exec(g, s, steps), last)
    ensures Runs(g, s, steps + [last]) && Exec(g, s, steps + [last]) == Do(g, Exec(g, s, steps), last)
    decreases |steps|
  {
    if steps == [] {
      assert steps + [last] == [last];
    } else {
      RunsAppend(g, Do(g, s, steps[0]), steps[1..], last);
      assert (steps + [last])[1..] == steps[1..] + [last];
    }
  }

  lemma ReachStart<B(!new)>(g: Geometry, s: State<B>)
    ensures Reaches(g, s, s)
  {
    var none: seq<Step<B>> := [];
    assert Runs(g, s, none) && Exec(g, s, none) == s;
  }

  lemma ReachStep<B(!new)>(g: Geometry, s: State<B>, r: State<B>, step: Step<B>)
    requires Reaches(g, s, r) && Enabled(g, r, step)
    ensures Reaches(g, s, Do(g, r, step))
  {
    var steps :| Runs(g, s, steps) && Exec(g, s, steps) == r;
    RunsAppend(g, s, steps, step);
  }

  lemma {:induction false} WithinAtEnd<B>(g: Geometry, s: State<B>, steps: seq<Step<B>>)
    requires Runs(g, s, steps) && Within(g, s, steps)
    ensures Fitting(Exec(g, s, steps))
    decreases |steps|
  {
    if steps != [] { WithinAtEnd(g, Do(g, s, steps[0]), steps[1..]); }
  }

  // ---------------------------------------------------------------- three operations take turns

  /** There are LOGSIZE home blocks, and one more, after the log region. */
  ghost predicate Ample(g: Geometry) {
    g.Valid() && g.size >= 2 && g.start + g.size + LOGSIZE < g.nblocks
  }

  /** The block right after the log region, which holds slot size - 1 if anything does. */
  ghost function Victim(g: Geometry): word
    requires Ample(g)
  {
    g.start + g.size
  }

  ghost function Spare(g: Geometry, j: nat): word
    requires Ample(g) && j < LOGSIZE
  {
    g.start + g.size + 1 + j
  }

  /** The blocks among the first n that operation k logs when three operations take turns. */
  ghost function Turns(g: Geometry, k: nat, n: nat): set<word>
    requires Ample(g) && n <= LOGSIZE
  {
    if n == 0 then {}
    else if (n - 1) % 3 == k then Turns(g, k, n - 1) + {Spare(g, n - 1)} else Turns(g, k, n - 1)
  }

  lemma {:induction false} TurnsBelow(g: Geometry, k: nat, n: nat)
    requires Ample(g) && n <= LOGSIZE
    ensures forall b :: b in Turns(g, k, n) ==> b <= g.start + g.size + n
  {
    if n > 0 { TurnsBelow(g, k, n - 1); }
  }

  /** The number of turns of k among the first n. */
  ghost function Share(k: nat, n: nat): nat
    requires k < 3
  {
    (n + 2 - k) / 3
  }

  lemma ShareNext(k: nat, n: nat)
    requires k < 3 && 0 < n
    ensures Share(k, n) == Share(k, n - 1) + if (n - 1) % 3 == k then 1 else 0
  {
  }

  lemma OneMore(a: set<word>, b: word)
    requires b !in a
    ensures |a + {b}| == |a| + 1
  {
  }

  lemma {:induction false} TurnsSize(g: Geometry, k: nat, n: nat)
    requires Ample(g) && n <= LOGSIZE && k < 3
    ensures |Turns(g, k, n)| == Share(k, n)
  {
    if n > 0 {
      TurnsSize(g, k, n - 1);
      TurnsBelow(g, k, n - 1);
      ShareNext(k, n);
      OneMore(Turns(g, k, n - 1), Spare(g, n - 1));
    }
  }

  ghost predicate Turned(g: Geometry, op: OpState, k: nat, n: nat)
    requires Ample(g) && n <= LOGSIZE
  {
    op == OpState(k, Turns(g, k, n), None)
  }

  /** Operations 0, 1 and 2 have logged the first n spare blocks in turns. */
  ghost predicate Shared(g: Geometry, ops: seq<OpState>, lh: seq<word>, n: nat)
    requires Ample(g) && n <= LOGSIZE
  {
    && |ops| == 3 && Turned(g, ops[0], 0, n) && Turned(g, ops[1], 1, n) && Turned(g, ops[2], 2, n)
    && |lh| == n && (forall j :: 0 <= j < n ==> lh[j] == Spare(g, j))
  }

  lemma SharedNext(g: Geometry, ops: seq<OpState>, lh: seq<word>, n: nat, k: nat, b: word)
    requires Ample(g) && 0 < n <= LOGSIZE && Shared(g, ops, lh, n - 1) && k == (n - 1) % 3 && b == Spare(g, n - 1)
    ensures Turned(g, ops[k], k, n - 1) && |Turns(g, k, n - 1) + {b}| <= MAXOPBLOCKS && Absorb(lh, b) == lh + [b]
    ensures Shared(g, ops[k := OpState(k, Turns(g, k, n - 1) + {b}, None)], Absorb(lh, b), n)
  {
    TurnsSize(g, k, n);
    assert Turns(g, k, n) == Turns(g, k, n - 1) + {b};
    assert Absorb(lh, b) == lh + [b];
  }

  /** The operation after next is another one, and still where it was. */
  lemma OtherTurn(g: Geometry, ops: seq<OpState>, lh: seq<word>, n: nat, p: nat, q: nat)
    requires Ample(g) && n + 2 <= LOGSIZE && Shared(g, ops, lh, n) && p == n % 3 && q == (n + 1) % 3
    ensures p != q && Turned(g, ops[p], p, n) && Turned(g, ops[q], q, n) && Turns(g, q, n + 1) == Turns(g, q, n)
  {
  }

  /** Every buffer holds what the disk held at the start, and exactly those in `held` are held. */
  ghost predicate Buffers<B>(disk: Disk<B>, cache: map<word, Buf<B>>, held: map<word, nat>) {
    && held.Keys <= cache.Keys <= disk.home.Keys
    && forall b :: b in cache ==>
        cache[b].data == disk.home[b] && !cache[b].touched && cache[b].holder == if b in held then Some(held[b]) else None
  }

  /** Since boot nothing has reached the disk or changed any buffer's contents, and operations
      run. */
  ghost predicate Busy<B>(disk: Disk<B>, s: State<B>, held: map<word, nat>) {
    && s.disk == disk && Buffers(disk, s.cache, held) && s.hist.commits == [0]
    && s.pc.Running? && !s.committing && s.outstanding == |s.ops|
  }

  lemma ReachBread<B(!new)>(g: Geometry, s0: State<B>, s: State<B>, held: map<word, nat>, id: nat, b: word)
    returns (r: State<B>)
    requires Reaches(g, s0, s) && Busy(s0.disk, s, held) && b in s0.disk.home && b !in held
    ensures Reaches(g, s0, r) && Busy(s0.disk, r, held[b := id]) && r.ops == s.ops && r.lh == s.lh
  {
    ReachStep(g, s0, s, Bread(id, b));
    r := Do(g, s, Bread(id, b));
  }

  lemma ReachCheck<B(!new)>(g: Geometry, s0: State<B>, s: State<B>, held: map<word, nat>, k: nat, b: word)
    returns (r: State<B>)
    requires Reaches(g, s0, s) && Busy(s0.disk, s, held) && k < |s.ops| && b in held && held[b] == s.ops[k].id
    requires !TooBig(g, |s.lh|)
    ensures Reaches(g, s0, r) && Busy(s0.disk, r, held) && r.lh == s.lh
    ensures r.ops == s.ops[k := s.ops[k].(checked := Some(b))]
  {
    ReachStep(g, s0, s, LogCheck(k, b));
    r := Do(g, s, LogCheck(k, b));
  }

  lemma ReachAppend<B(!new)>(g: Geometry, s0: State<B>, s: State<B>, held: map<word, nat>, k: nat, b: word)
    returns (r: State<B>)
    requires Reaches(g, s0, s) && Busy(s0.disk, s, held) && k < |s.ops| && b in held && held[b] == s.ops[k].id
    requires s.ops[k].checked == Some(b) && |s.ops[k].spent + {b}| <= MAXOPBLOCKS
    ensures Reaches(g, s0, r) && Busy(s0.disk, r, held) && r.lh == Absorb(s.lh, b)
    ensures r.ops == s.ops[k := OpState(s.ops[k].id, s.ops[k].spent + {b}, None)]
  {
    ReachStep(g, s0, s, LogAppend(k, b));
    r := Do(g, s, LogAppend(k, b));
  }

  lemma ReachBrelse<B(!new)>(g: Geometry, s0: State<B>, s: State<B>, held: map<word, nat>, b: word)
    returns (r: State<B>)
    requires Reaches(g, s0, s) && Busy(s0.disk, s, held) && b in held
    ensures Reaches(g, s0, r) && Busy(s0.disk, r, held - {b}) && r.ops == s.ops && r.lh == s.lh
  {
    ReachStep(g, s0, s, Brelse(held[b], b));
    r := Do(g, s, Brelse(held[b], b));
  }

  /** An operation can log one more block of its allowance: bread, log_write, brelse. */
  lemma LogOne<B(!new)>(g: Geometry, s0: State<B>, s: State<B>, k: nat, b: word) returns (r: State<B>)
    requires Reaches(g, s0, s) && Busy(s0.disk, s, map[]) && b in s0.disk.home && !TooBig(g, |s.lh|)
    requires k < |s.ops| && |s.ops[k].spent + {b}| <= MAXOPBLOCKS
    ensures Reaches(g, s0, r) && Busy(s0.disk, r, map[]) && r.lh == Absorb(s.lh, b)
    ensures r.ops == s.ops[k := OpState(s.ops[k].id, s.ops[k].spent + {b}, None)]
  {
    var held := map[b := s.ops[k].id];
    r := ReachBread(g, s0, s, map[], s.ops[k].id, b);
    assert map[][b := s.ops[k].id] == held;
    r := ReachCheck(g, s0, r, held, k, b);
    r := ReachAppend(g, s0, r, held, k, b);
    r := ReachBrelse(g, s0, r, held, b);
    assert held - {b} == map[];
  }

  ghost predicate CleanDisk<B>(g: Geometry, disk: Disk<B>) {
    Ample(g) && Bootable(g, disk) && disk.head == []
  }

  /** Three operations start after a boot from a clean disk. */
  lemma StartThree<B(!new)>(g: Geometry, disk: Disk<B>) returns (s: State<B>)
    requires CleanDisk(g, disk)
    ensures Reaches(g, Init(disk), s) && Busy(disk, s, map[]) && s.lh == []
    ensures s.ops == [OpState(0, {}, None), OpState(1, {}, None), OpState(2, {}, None)]
  {
    var s0 := Init(disk);
    ReachStart(g, s0);
    ReachStep(g, s0, s0, Recover);
    s := Do(g, s0, Recover);
    ReachStep(g, s0, s, Begin(0));
    s := Do(g, s, Begin(0));
    assert s.hist.events == [BeginOp(0)];
    ReachStep(g, s0, s, Begin(1));
    s := Do(g, s, Begin(1));
    assert s.hist.events == [BeginOp(0), BeginOp(1)];
    ReachStep(g, s0, s, Begin(2));
    s := Do(g, s, Begin(2));
  }

  lemma SpareIsHome<B>(g: Geometry, disk: Disk<B>, j: nat)
    requires CleanDisk(g, disk) && j < LOGSIZE
    ensures Spare(g, j) in disk.home
  {
    assert g.Home(Spare(g, j));
  }

  /** They log the first n spare blocks in turns. */
  lemma {:induction false} LogAll<B(!new)>(g: Geometry, disk: Disk<B>, n: nat) returns (s: State<B>)
    requires CleanDisk(g, disk) && n <= LOGSIZE && n < g.size
    ensures Reaches(g, Init(disk), s) && Busy(disk, s, map[]) && Shared(g, s.ops, s.lh, n)
  {
    if n == 0 {
      s := StartThree(g, disk);
    } else {
      s := LogAll(g, disk, n - 1);
      var k := (n - 1) % 3;
      SpareIsHome(g, disk, n - 1);
      SharedNext(g, s.ops, s.lh, n, k, Spare(g, n - 1));
      s := LogOne(g, Init(disk), s, k, Spare(g, n - 1));
    }
  }

  // ---------------------------------------------------------------- log_write's panics

  /** The size test precedes absorption. Even with a roomy log region and every operation within
      its allowance of ten distinct blocks, three operations can fill the header, and then
      log_write panics for a block that is already logged and would have been absorbed. */
  lemma RelogPanics<B(!new)>(g: Geometry, disk: Disk<B>) returns (s: State<B>, b: word)
    requires CleanDisk(g, disk) && g.size > LOGSIZE
    ensures Reaches(g, Init(disk), s)
    ensures HeldBy(s, 2, b) && b in s.ops[2].spent && |s.ops[2].spent| <= MAXOPBLOCKS
    ensures Absorb(s.lh, b) == s.lh && TooBig(g, |s.lh|)
  {
    s := LogAll(g, disk, LOGSIZE);
    b := Spare(g, 29);
    assert s.lh[29] == b;
    TurnsSize(g, 2, LOGSIZE);
    assert Turned(g, s.ops[2], 2, LOGSIZE);
    assert b in Turns(g, 2, LOGSIZE);
    SpareIsHome(g, disk, 29);
    ReachStep(g, Init(disk), s, Bread(2, b));
    s := Do(g, s, Bread(2, b));
  }

  /** A region of at most LOGSIZE blocks, such as the one mkfs lays out, is too small for the
      reservation: an operation that still has allowance panics in log_write. */
  lemma SmallRegionPanics<B(!new)>(g: Geometry, disk: Disk<B>) returns (s: State<B>, k: nat, b: word)
    requires CleanDisk(g, disk) && g.size <= LOGSIZE
    ensures Reaches(g, Init(disk), s)
    ensures HeldBy(s, k, b) && |s.ops[k].spent| < MAXOPBLOCKS && b !in s.ops[k].spent && TooBig(g, |s.lh|)
  {
    var n := g.size - 1;
    s := LogAll(g, disk, n);
    k := n % 3;
    b := Spare(g, n);
    TurnsSize(g, k, n);
    TurnsBelow(g, k, n);
    assert Turned(g, s.ops[k], k, n);
    SpareIsHome(g, disk, n);
    ReachStep(g, Init(disk), s, Bread(k, b));
    s := Do(g, s, Bread(k, b));
  }

  // ---------------------------------------------------------------- overrunning the region

  /** Operations p and q each hold one of two blocks. */
  ghost predicate BothHold(ops: seq<OpState>, held: map<word, nat>, p: nat, q: nat, b: word, c: word) {
    && p < |ops| && q < |ops| && p != q && b != c
    && b in held && held[b] == ops[p].id && c in held && held[c] == ops[q].id
  }

  lemma BothTake<B(!new)>(g: Geometry, s0: State<B>, s: State<B>, p: nat, q: nat, b: word, c: word)
    returns (r: State<B>, held: map<word, nat>)
    requires Reaches(g, s0, s) && Busy(s0.disk, s, map[])
    requires p < |s.ops| && q < |s.ops| && p != q && b != c && b in s0.disk.home && c in s0.disk.home
    ensures Reaches(g, s0, r) && Busy(s0.disk, r, held) && BothHold(r.ops, held, p, q, b, c) && held.Keys == {b, c}
    ensures r.ops == s.ops && r.lh == s.lh
  {
    r := ReachBread(g, s0, s, map[], s.ops[p].id, b);
    held := map[][b := s.ops[p].id];
    r := ReachBread(g, s0, r, held, s.ops[q].id, c);
    held := held[c := s.ops[q].id];
  }

  lemma BothRelease<B(!new)>(g: Geometry, s0: State<B>, s: State<B>, held: map<word, nat>, b: word, c: word)
    returns (r: State<B>)
    requires Reaches(g, s0, s) && Busy(s0.disk, s, held) && held.Keys == {b, c} && b != c
    ensures Reaches(g, s0, r) && Busy(s0.disk, r, map[]) && r.ops == s.ops && r.lh == s.lh
  {
    r := ReachBrelse(g, s0, s, held, b);
    r := ReachBrelse(g, s0, r, held - {b}, c);
    assert held - {b} - {c} == map[];
  }

  lemma BothCheck<B(!new)>(g: Geometry, s0: State<B>, s: State<B>, held: map<word, nat>, p: nat, q: nat, b: word, c: word)
    returns (r: State<B>)
    requires Reaches(g, s0, s) && Busy(s0.disk, s, held) && BothHold(s.ops, held, p, q, b, c) && !TooBig(g, |s.lh|)
    ensures Reaches(g, s0, r) && Busy(s0.disk, r, held) && r.lh == s.lh
    ensures r.ops == s.ops[p := s.ops[p].(checked := Some(b))][q := s.ops[q].(checked := Some(c))]
  {
    r := ReachCheck(g, s0, s, held, p, b);
    r := ReachCheck(g, s0, r, held, q, c);
  }

  lemma BothAppend<B(!new)>(g: Geometry, s0: State<B>, s: State<B>, held: map<word, nat>, p: nat, q: nat, b: word, c: word)
    returns (r: State<B>)
    requires Reaches(g, s0, s) && Busy(s0.disk, s, held) && BothHold(s.ops, held, p, q, b, c)
    requires s.ops[p].checked == Some(b) && |s.ops[p].spent + {b}| <= MAXOPBLOCKS
    requires s.ops[q].checked == Some(c) && |s.ops[q].spent + {c}| <= MAXOPBLOCKS
    ensures Reaches(g, s0, r) && Busy(s0.disk, r, held) && r.lh == Absorb(Absorb(s.lh, b), c)
    ensures r.ops == s.ops[p := OpState(s.ops[p].id, s.ops[p].spent + {b}, None)]
                          [q := OpState(s.ops[q].id, s.ops[q].spent + {c}, None)]
  {
    r := ReachAppend(g, s0, s, held, p, b);
    r := ReachAppend(g, s0, r, held, q, c);
  }

  /** The operations after two of them have checked and then appended. */
  lemma CheckedOps(ops: seq<OpState>, p: nat, q: nat, b: word, c: word, m: seq<OpState>)
    requires p < |ops| && q < |ops| && p != q && m == ops[p := ops[p].(checked := Some(b))][q := ops[q].(checked := Some(c))]
    ensures |m| == |ops| && m[p] == ops[p].(checked := Some(b)) && m[q] == ops[q].(checked := Some(c))
    ensures m[p := OpState(m[p].id, m[p].spent + {b}, None)][q := OpState(m[q].id, m[q].spent + {c}, None)]
      == ops[p := OpState(ops[p].id, ops[p].spent + {b}, None)][q := OpState(ops[q].id, ops[q].spent + {c}, None)]
  {
  }

  lemma BothLog<B(!new)>(g: Geometry, s0: State<B>, s: State<B>, held: map<word, nat>, p: nat, q: nat, b: word, c: word)
    returns (r: State<B>)
    requires Reaches(g, s0, s) && Busy(s0.disk, s, held) && BothHold(s.ops, held, p, q, b, c) && !TooBig(g, |s.lh|)
    requires |s.ops[p].spent + {b}| <= MAXOPBLOCKS && |s.ops[q].spent + {c}| <= MAXOPBLOCKS
    ensures Reaches(g, s0, r) && Busy(s0.disk, r, held) && r.lh == Absorb(Absorb(s.lh, b), c)
    ensures r.ops == s.ops[p := OpState(s.ops[p].id, s.ops[p].spent + {b}, None)]
                          [q := OpState(s.ops[q].id, s.ops[q].spent + {c}, None)]
  {
    r := BothCheck(g, s0, s, held, p, q, b, c);
    CheckedOps(s.ops, p, q, b, c, r.ops);
    r := BothAppend(g, s0, r, held, p, q, b, c);
  }

  /** Two operations both pass log_write's unlocked size test before either appends, so two more
      blocks get into the header although there may be room for only one. */
  lemma LogTwo<B(!new)>(g: Geometry, s0: State<B>, s: State<B>, p: nat, q: nat, b: word, c: word)
    returns (r: State<B>)
    requires Reaches(g, s0, s) && Busy(s0.disk, s, map[]) && !TooBig(g, |s.lh|)
    requires p < |s.ops| && q < |s.ops| && p != q && b != c && b in s0.disk.home && c in s0.disk.home
    requires |s.ops[p].spent + {b}| <= MAXOPBLOCKS && |s.ops[q].spent + {c}| <= MAXOPBLOCKS
    ensures Reaches(g, s0, r) && Busy(s0.disk, r, map[]) && r.lh == Absorb(Absorb(s.lh, b), c)
    ensures r.ops == s.ops[p := OpState(s.ops[p].id, s.ops[p].spent + {b}, None)]
                          [q := OpState(s.ops[q].id, s.ops[q].spent + {c}, None)]
  {
    var s1, held := BothTake(g, s0, s, p, q, b, c);
    var s2 := BothLog(g, s0, s1, held, p, q, b, c);
    r := BothRelease(g, s0, s2, held, b, c);
  }

  lemma SharedTwice(g: Geometry, ops: seq<OpState>, lh: seq<word>, n: nat, p: nat, q: nat)
    requires Ample(g) && n + 2 <= LOGSIZE && Shared(g, ops, lh, n) && p == n % 3 && q == (n + 1) % 3
    ensures p != q && ops[p].id == p && ops[q].id == q
    ensures |ops[p].spent + {Spare(g, n)}| <= MAXOPBLOCKS && |ops[q].spent + {Spare(g, n + 1)}| <= MAXOPBLOCKS
    ensures Shared(g, ops[p := OpState(p, ops[p].spent + {Spare(g, n)}, None)]
                         [q := OpState(q, ops[q].spent + {Spare(g, n + 1)}, None)],
                   Absorb(Absorb(lh, Spare(g, n)), Spare(g, n + 1)), n + 2)
  {
    OtherTurn(g, ops, lh, n, p, q);
    SharedNext(g, ops, lh, n + 1, p, Spare(g, n));
    SharedNext(g, ops[p := OpState(p, Turns(g, p, n) + {Spare(g, n)}, None)], Absorb(lh, Spare(g, n)), n + 2, q, Spare(g, n + 1));
  }

  /** In a region of at most LOGSIZE blocks the header comes to list one block more than there
      are slots. */
  lemma Overrun<B(!new)>(g: Geometry, disk: Disk<B>) returns (s: State<B>)
    requires CleanDisk(g, disk) && g.size <= LOGSIZE
    ensures Reaches(g, Init(disk), s) && Busy(disk, s, map[]) && !Fitting(s)
    ensures Shared(g, s.ops, s.lh, g.size)
  {
    var n := g.size - 2;
    s := LogAll(g, disk, n);
    SpareIsHome(g, disk, n);
    SpareIsHome(g, disk, n + 1);
    SharedTwice(g, s.ops, s.lh, n, n % 3, (n + 1) % 3);
    s := LogTwo(g, Init(disk), s, n % 3, (n + 1) % 3, Spare(g, n), Spare(g, n + 1));
  }

  /** The three operations end, and the last one out starts commit(). */
  lemma EndThree<B(!new)>(g: Geometry, s0: State<B>, s: State<B>) returns (r: State<B>)
    requires Reaches(g, s0, s) && Busy(s0.disk, s, map[]) && |s.ops| == 3 && s.lh != []
    requires s.ops[0].checked.None? && s.ops[1].checked.None? && s.ops[2].checked.None?
    ensures Reaches(g, s0, r) && r.pc == WriteLog(0) && r.lh == s.lh
    ensures r.disk == s0.disk && Buffers(s0.disk, r.cache, map[]) && r.hist.commits == [0]
  {
    ReachStep(g, s0, s, End(0));
    var s1 := Do(g, s, End(0));
    ReachStep(g, s0, s1, End(0));
    var s2 := Do(g, s1, End(0));
    ReachStep(g, s0, s2, End(0));
    r := Do(g, s2, End(0));
  }

  /** write_log has copied the first t logged blocks. */
  ghost predicate Copying<B>(g: Geometry, disk: Disk<B>, s: State<B>, t: nat)
    requires CleanDisk(g, disk) && g.size <= LOGSIZE
  {
    && s.pc == WriteLog(t) && |s.lh| == g.size && (forall j :: 0 <= j < g.size ==> s.lh[j] == Spare(g, j))
    && s.disk.head == [] && s.disk.home == disk.home && |s.disk.slots| == |disk.slots|
    && Buffers(disk, s.cache, map[]) && s.hist.commits == [0]
  }

  lemma {:induction false} CopySome<B(!new)>(g: Geometry, disk: Disk<B>, t: nat) returns (s: State<B>)
    requires CleanDisk(g, disk) && t < g.size <= LOGSIZE
    ensures Reaches(g, Init(disk), s) && Copying(g, disk, s, t)
  {
    if t == 0 {
      s := Overrun(g, disk);
      assert Turned(g, s.ops[0], 0, g.size) && Turned(g, s.ops[1], 1, g.size) && Turned(g, s.ops[2], 2, g.size);
      s := EndThree(g, Init(disk), s);
    } else {
      s := CopySome(g, disk, t - 1);
      SpareIsHome(g, disk, t - 1);
      ReachStep(g, Init(disk), s, Commit);
      s := Do(g, s, Commit);
    }
  }

  /** Then write_log destroys the block after the region, which nobody logged: before the header
      is written, and with no crash, the disk has already lost its old contents. */
  lemma OverrunDestroys<B(!new)>(g: Geometry, disk: Disk<B>) returns (s: State<B>)
    requires CleanDisk(g, disk) && g.size <= LOGSIZE
    ensures Reaches(g, Init(disk), s) && Victim(g) in disk.home && Spare(g, g.size - 1) in disk.home
    ensures Victim(g) !in s.lh && s.disk.head == [] && Durable(s.hist) == 0
    ensures s.disk.home == disk.home[Victim(g) := disk.home[Spare(g, g.size - 1)]]
  {
    s := CopySome(g, disk, g.size - 1);
    SpareIsHome(g, disk, g.size - 1);
    assert g.Home(Victim(g));
    assert SlotBlock(g, g.size - 1) == Victim(g);
    ReachStep(g, Init(disk), s, Commit);
    s := Do(g, s, Commit);
  }

  // ---------------------------------------------------------------- how large the region must be

  /** The header never outgrows the region, in any run from any bootable disk. */
  ghost predicate FitsAlways<B(!new)>(g: Geometry) {
    forall disk: Disk<B>, steps: seq<Step<B>> ::
      Bootable(g, disk) && Runs(g, Init(disk), steps) ==> Within(g, Init(disk), steps)
  }

  /** Recovery restores whole operations, after any run from any bootable disk. */
  ghost predicate AtomicAlways<B(!new)>(g: Geometry) {
    forall disk: Disk<B>, steps: seq<Step<B>> ::
      Bootable(g, disk) && Runs(g, Init(disk), steps) ==>
        RestoresDurable(Restore(disk, |disk.head|), Exec(g, Init(disk), steps))
  }

  /** A clean disk with x in the block after the log region and y in every other home block. */
  ghost function Witness<B>(g: Geometry, x: B, y: B): (disk: Disk<B>)
    requires Ample(g)
    ensures CleanDisk(g, disk)
    ensures forall b: word :: g.Home(b) ==> disk.home[b] == if b == Victim(g) then x else y
  {
    Disk([], seq(g.size - 1, _ => x), map b: word | b < g.nblocks && g.Home(b) :: if b == Victim(g) then x else y)
  }

  /** The header fits the region in every run exactly when the region has more than LOGSIZE blocks. */
  lemma RegionSuffices<B(!new)>(g: Geometry, x: B)
    requires Ample(g)
    ensures FitsAlways<B>(g) <==> g.size > LOGSIZE
  {
    if g.size > LOGSIZE {
      forall disk: Disk<B>, steps: seq<Step<B>> | Bootable(g, disk) && Runs(g, Init(disk), steps)
        ensures Within(g, Init(disk), steps) {
        InitInv(g, disk);
        RunInv(g, Restore(disk, |disk.head|), Init(disk), steps);
      }
    } else {
      var disk := Witness(g, x, x);
      var s := Overrun(g, disk);
      var steps :| Runs(g, Init(disk), steps) && Exec(g, Init(disk), steps) == s;
      if Within(g, Init(disk), steps) { WithinAtEnd(g, Init(disk), steps); }
    }
  }

  /** Recovery restores whole operations after every run exactly when the region has more than
      LOGSIZE blocks. */
  lemma AtomicityNeedsRoom<B(!new)>(g: Geometry, x: B, y: B)
    requires Ample(g) && x != y
    ensures AtomicAlways<B>(g) <==> g.size > LOGSIZE
  {
    if g.size > LOGSIZE {
      forall disk: Disk<B>, steps: seq<Step<B>> | Bootable(g, disk) && Runs(g, Init(disk), steps)
        ensures RestoresDurable(Restore(disk, |disk.head|), Exec(g, Init(disk), steps)) {
        WholeOperationAtomicity(g, disk, steps);
      }
    } else {
      var disk := Witness(g, x, y);
      var s := OverrunDestroys(g, disk);
      var steps :| Runs(g, Init(disk), steps) && Exec(g, Init(disk), steps) == s;
      assert s.disk.home[Victim(g)] == y && disk.home[Victim(g)] == x;
      assert s.hist.events[..0] == [];
      assert !RestoresDurable(Restore(disk, 0), s);
    }
  }

  /** The disk mkfs makes: 1000 blocks, the log region of LOGSIZE blocks at block 2, then the inodes. */
  const MKFS: Geometry := Geometry(1000, 2, 30)

  /** So it is not large enough, by one block. */
  lemma MkfsTooSmall<B(!new)>(x: B, y: B)
    requires x != y
    ensures !FitsAlways<B>(MKFS) && !AtomicAlways<B>(MKFS)
    ensures FitsAlways<B>(MKFS.(size := MKFS.size + 1)) && AtomicAlways<B>(MKFS.(size := MKFS.size + 1))
  {
    RegionSuffices(MKFS, x);
    AtomicityNeedsRoom(MKFS, x, y);
    RegionSuffices(MKFS.(size := MKFS.size + 1), x);
    AtomicityNeedsRoom(MKFS.(size := MKFS.size + 1), x, y);
  }
}
