/** The allocator's free list as a value (umalloc.c): blocks in address order, what inserting a
    block with coalescing and carving one off mean, and which units the list covers. Addresses
    and sizes are counted in headers. */
module FreeList {
  datatype Block = Block(addr: int, size: nat) {
    function End(): int { addr + size }
  }

  /** The list starts with the permanent zero-sized block; every later block is not empty and
      starts strictly above the end of the one before, so blocks are ordered, disjoint and
      never adjacent. */
  predicate Ordered(f: seq<Block>) {
    && |f| > 0 && f[0].size == 0
    && (forall i :: 0 < i < |f| ==> Follows(f, i))
  }

  predicate Follows(f: seq<Block>, i: nat)
    requires 0 < i < |f|
  {
    f[i].size > 0 && f[i - 1].End() < f[i].addr
  }

  lemma {:induction false} OrderedAt(f: seq<Block>, i: nat, j: nat)
    requires Ordered(f) && i < j < |f|
    ensures f[i].End() < f[j].addr
    decreases j
  {
    assert Follows(f, j);
    if i < j - 1 { OrderedAt(f, i, j - 1); }
  }

  lemma Shorter(f: seq<Block>)
    requires Ordered(f) && |f| > 1
    ensures Ordered(f[..|f| - 1])
  {
    var g := f[..|f| - 1];
    forall i | 0 < i < |g| ensures Follows(g, i) {
      assert Follows(f, i);
    }
  }

  // ---------------------------------------------------------------- covered units

  ghost function Range(a: int, n: nat): set<int> {
    set u | a <= u < a + n && Inside(u, a, n)
  }

  predicate Inside(u: int, a: int, n: nat) { a <= u < a + n }

  /** The units of the blocks in f. */
  ghost function Units(f: seq<Block>): set<int> {
    if f == [] then {} else Units(f[..|f| - 1]) + Range(f[|f| - 1].addr, f[|f| - 1].size)
  }

  function Total(f: seq<Block>): nat {
    if f == [] then 0 else Total(f[..|f| - 1]) + f[|f| - 1].size
  }

  lemma {:induction false} UnitsAppend(f: seq<Block>, g: seq<Block>)
    ensures Units(f + g) == Units(f) + Units(g)
    decreases |g|
  {
    if g == [] {
      assert f + g == f;
    } else {
      UnitsAppend(f, g[..|g| - 1]);
      assert (f + g)[..|f + g| - 1] == f + g[..|g| - 1];
    }
  }

  lemma UnitsOne(b: Block)
    ensures Units([b]) == Range(b.addr, b.size)
  {
    assert [b][..0] == [];
  }

  lemma {:induction false} RangeSize(a: int, n: nat)
    ensures |Range(a, n)| == n
  {
    if n == 0 {
      assert Range(a, n) == {};
    } else {
      RangeSize(a, n - 1);
      assert Range(a, n) == Range(a, n - 1) + {a + n - 1};
    }
  }

  /** Every unit of an ordered list lies below the end of its last block. */
  lemma {:induction false} UnitsBelow(f: seq<Block>)
    requires Ordered(f)
    ensures forall u :: u in Units(f) ==> u < f[|f| - 1].End()
    decreases |f|
  {
    if |f| > 1 {
      Shorter(f);
      assert Follows(f, |f| - 1);
      UnitsBelow(f[..|f| - 1]);
    } else {
      assert f[..0] == [];
    }
  }

  /** In an ordered list the number of units covered is the sum of the block sizes. */
  lemma {:induction false} UnitsCount(f: seq<Block>)
    requires Ordered(f)
    ensures |Units(f)| == Total(f)
    decreases |f|
  {
    var last := f[|f| - 1];
    RangeSize(last.addr, last.size);
    if |f| > 1 {
      Shorter(f);
      assert Follows(f, |f| - 1);
      UnitsCount(f[..|f| - 1]);
      UnitsBelow(f[..|f| - 1]);
      assert Units(f[..|f| - 1]) !! Range(last.addr, last.size);
    } else {
      assert f[..0] == [];
    }
  }

  /** The units of the last block are the highest, and none lies just below it. */
  lemma LastBlock(f: seq<Block>, u: int)
    requires Ordered(f) && |f| > 1
    ensures var last := f[|f| - 1];
      && (u in Units(f) ==> u < last.End()) && last.End() - 1 in Units(f) && last.addr - 1 !in Units(f)
      && (u in Units(f[..|f| - 1]) <==> u in Units(f) && u < last.addr)
      && (last.addr <= u < last.End() ==> u in Units(f))
  {
    Shorter(f);
    UnitsBelow(f);
    UnitsBelow(f[..|f| - 1]);
    assert Follows(f, |f| - 1);
  }

  lemma UnitsOfBase(b: Block)
    requires b.size == 0
    ensures Units([b]) == {}
  {
    UnitsOne(b);
  }

  /** A coalesced free list is determined by the units it covers. */
  lemma {:induction false} Canonical(f: seq<Block>, g: seq<Block>)
    requires Ordered(f) && Ordered(g) && f[0] == g[0] && Units(f) == Units(g)
    ensures f == g
    decreases |f|
  {
    if |f| == 1 || |g| == 1 {
      UnitsOfBase(f[0]);
      assert |f| == 1 ==> f == [f[0]];
      assert |g| == 1 ==> g == [f[0]];
      if |f| > 1 { LastBlock(f, 0); }
      if |g| > 1 { LastBlock(g, 0); }
    } else {
      var a, b := f[|f| - 1], g[|g| - 1];
      LastBlock(f, b.End() - 1);
      LastBlock(g, a.End() - 1);
      LastBlock(f, b.addr - 1);
      LastBlock(g, a.addr - 1);
      assert a == b;
      var f1, g1 := Units(f[..|f| - 1]), Units(g[..|g| - 1]);
      forall u ensures u in f1 <==> u in g1 {
        LastBlock(f, u);
        LastBlock(g, u);
      }
      Shorter(f);
      Shorter(g);
      Canonical(f[..|f| - 1], g[..|g| - 1]);
      assert f == f[..|f| - 1] + [a];
      assert g == g[..|g| - 1] + [b];
    }
  }

  lemma {:induction false} BlockCovered(f: seq<Block>, i: nat)
    requires i < |f|
    ensures Range(f[i].addr, f[i].size) <= Units(f)
    decreases |f|
  {
    if i < |f| - 1 { BlockCovered(f[..|f| - 1], i); }
  }

  // ---------------------------------------------------------------- insertion with coalescing

  /** b belongs between the k-th block and the next one. */
  predicate Between(f: seq<Block>, k: nat, b: Block) {
    k < |f| && f[k].End() <= b.addr && f[k].addr < b.addr && (k + 1 < |f| ==> b.End() <= f[k + 1].addr)
  }

  predicate JoinsLow(f: seq<Block>, k: nat, b: Block) { k < |f| && f[k].End() == b.addr }

  predicate JoinsHigh(f: seq<Block>, k: nat, b: Block) { k + 1 < |f| && b.End() == f[k + 1].addr }

  /** The list after free() has put b after the k-th block. */
  function Insert(f: seq<Block>, k: nat, b: Block): seq<Block>
    requires k < |f|
  {
    var high := if JoinsHigh(f, k, b) then Block(b.addr, b.size + f[k + 1].size) else b;
    var rest := f[if JoinsHigh(f, k, b) then k + 2 else k + 1..];
    if JoinsLow(f, k, b) then f[..k] + [Block(f[k].addr, f[k].size + high.size)] + rest
    else f[..k + 1] + [high] + rest
  }

  lemma InsertOrdered(f: seq<Block>, k: nat, b: Block)
    requires Ordered(f) && Between(f, k, b) && b.size > 0 && f[0].addr < b.addr
    ensures Ordered(Insert(f, k, b)) && Insert(f, k, b)[0] == f[0]
  {
    var r := Insert(f, k, b);
    var at := if JoinsLow(f, k, b) then k else k + 1;
    var skip := |f| - |r|;
    forall i | 0 < i < |r| ensures Follows(r, i) {
      if i < at { assert Follows(f, i); }
      else if i == at { if at == k { assert Follows(f, k); } }
      else { assert r[i] == f[i + skip]; assert Follows(f, i + skip); if i - 1 > at { assert r[i - 1] == f[i - 1 + skip]; } }
    }
  }

  /** Replacing the blocks in the middle of a list by one that covers the same units and b. */
  lemma MiddleUnits(front: seq<Block>, old_: seq<Block>, mid: Block, back: seq<Block>, more: set<int>)
    requires Range(mid.addr, mid.size) == Units(old_) + more
    ensures Units(front + [mid] + back) == Units(front + old_ + back) + more
  {
    UnitsAppend(front + [mid], back);
    UnitsAppend(front, [mid]);
    UnitsAppend(front + old_, back);
    UnitsAppend(front, old_);
    UnitsOne(mid);
  }

  lemma Abut(a: int, m: nat, n: nat)
    ensures Range(a, m) + Range(a + m, n) == Range(a, m + n)
  {
  }

  lemma InsertUnits(f: seq<Block>, k: nat, b: Block)
    requires Between(f, k, b)
    ensures Units(Insert(f, k, b)) == Units(f) + Range(b.addr, b.size)
  {
    var hi, lo := JoinsHigh(f, k, b), JoinsLow(f, k, b);
    var from, to := if lo then k else k + 1, if hi then k + 2 else k + 1;
    var mid := Insert(f, k, b)[from];
    assert f == f[..from] + f[from..to] + f[to..];
    assert Insert(f, k, b) == f[..from] + [mid] + f[to..];
    JoinedUnits(f, k, b, from, to, mid);
    MiddleUnits(f[..from], f[from..to], mid, f[to..], Range(b.addr, b.size));
  }

  /** The block that replaces b and its neighbours covers exactly their units. */
  lemma JoinedUnits(f: seq<Block>, k: nat, b: Block, from: nat, to: nat, mid: Block)
    requires Between(f, k, b) && from == (if JoinsLow(f, k, b) then k else k + 1)
    requires to == (if JoinsHigh(f, k, b) then k + 2 else k + 1) && mid == Insert(f, k, b)[from]
    ensures Range(mid.addr, mid.size) == Units(f[from..to]) + Range(b.addr, b.size)
  {
    if from == k { UnitsOne(f[k]); Abut(f[k].addr, f[k].size, b.size); }
    if to == k + 2 { UnitsOne(f[k + 1]); Abut(b.addr, b.size, f[k + 1].size); }
    if from == k && to == k + 2 {
      UnitsAppend([f[k]], [f[k + 1]]);
      assert f[from..to] == [f[k]] + [f[k + 1]];
      Abut(f[k].addr, f[k].size, b.size + f[k + 1].size);
    } else if from == k {
      assert f[from..to] == [f[k]];
    } else if to == k + 2 {
      assert f[from..to] == [f[k + 1]];
    } else {
      assert f[from..to] == [];
    }
  }

  // ---------------------------------------------------------------- carving off a block

  /** The list after malloc() has taken n units from the end of the k-th block. */
  function Take(f: seq<Block>, k: nat, n: nat): seq<Block>
    requires k < |f| && n <= f[k].size
  {
    if f[k].size == n then f[..k] + f[k + 1..] else f[k := Block(f[k].addr, f[k].size - n)]
  }

  lemma TakeOrdered(f: seq<Block>, k: nat, n: nat)
    requires Ordered(f) && 0 < k < |f| && 0 < n <= f[k].size
    ensures Ordered(Take(f, k, n)) && Take(f, k, n)[0] == f[0]
  {
    var r := Take(f, k, n);
    if f[k].size == n && k + 1 < |f| { OrderedAt(f, k - 1, k + 1); }
    forall i | 0 < i < |r| ensures Follows(r, i) {
      assert Follows(f, i);
      if |r| < |f| { assert Follows(f, i + 1); }
    }
  }

  lemma TakeUnits(f: seq<Block>, k: nat, n: nat)
    requires Ordered(f) && 0 < k < |f| && 0 < n <= f[k].size
    ensures Units(Take(f, k, n)) + Range(f[k].End() - n, n) == Units(f)
    ensures Units(Take(f, k, n)) !! Range(f[k].End() - n, n)
  {
    var front, back := f[..k], f[k + 1..];
    var kept := if f[k].size == n then [] else [Block(f[k].addr, f[k].size - n)];
    assert f == front + [f[k]] + back;
    assert Take(f, k, n) == front + kept + back;
    KeptUnits(f[k], n, kept);
    MiddleUnits(front, kept, f[k], back, Range(f[k].End() - n, n));
    TakenApart(f, k, n, front, kept, back);
  }

  /** What is left of a block, and what is taken from it. */
  lemma KeptUnits(b: Block, n: nat, kept: seq<Block>)
    requires 0 < n <= b.size && kept == if b.size == n then [] else [Block(b.addr, b.size - n)]
    ensures Range(b.addr, b.size) == Units(kept) + Range(b.End() - n, n)
    ensures forall u :: u in Units(kept) ==> u < b.End() - n
  {
    if b.size > n { UnitsOne(kept[0]); }
    Abut(b.addr, b.size - n, n);
  }

  lemma TakenApart(f: seq<Block>, k: nat, n: nat, front: seq<Block>, kept: seq<Block>, back: seq<Block>)
    requires Ordered(f) && 0 < k < |f| && 0 < n <= f[k].size && front == f[..k] && back == f[k + 1..]
    requires forall u :: u in Units(kept) ==> u < f[k].End() - n
    ensures Units(front + kept + back) !! Range(f[k].End() - n, n)
  {
    UnitsAppend(front + kept, back);
    UnitsAppend(front, kept);
    UnitsLow(f, k, front);
    UnitsAbove(f, k, back);
  }

  /** The blocks before the k-th cover only units below its start. */
  lemma UnitsLow(f: seq<Block>, k: nat, front: seq<Block>)
    requires Ordered(f) && 0 < k < |f| && front == f[..k]
    ensures forall u :: u in Units(front) ==> u < f[k].addr
  {
    forall i | 0 < i < |front| ensures Follows(front, i) {
      assert Follows(f, i);
    }
    UnitsBelow(front);
    assert Follows(f, k);
  }

  /** The blocks after the k-th cover only units above its end. */
  lemma {:induction false} UnitsAbove(f: seq<Block>, k: nat, back: seq<Block>)
    requires Ordered(f) && k < |f| && back == f[k + 1..]
    ensures forall u :: u in Units(back) ==> f[k].End() < u
    decreases |f|
  {
    if back != [] {
      Shorter(f);
      assert back[..|back| - 1] == f[..|f| - 1][k + 1..];
      UnitsAbove(f[..|f| - 1], k, back[..|back| - 1]);
      OrderedAt(f, k, |f| - 1);
    }
  }
}
