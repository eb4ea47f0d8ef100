/** malloc, free and morecore over headers linked in a circular list (umalloc.c). Addresses are
    counted in headers; `base` lies below everything sbrk returns, as it does in an xv6 process. */
module Umalloc {
  import opened Options
  import opened FreeList

  datatype Header = Header(ptr: int, size: nat)

  const HEADER: nat := 8
  const MINCORE: nat := 4096

  function UnitsFor(nbytes: nat): (n: nat)
    ensures 0 < n && nbytes <= (n - 1) * HEADER < nbytes + HEADER
  {
    (nbytes + HEADER - 1) / HEADER + 1
  }

  function Core(n: nat): nat { if n < MINCORE then MINCORE else n }

  /** The largest request that malloc's 32-bit arithmetic serves. */
  const MAXREQUEST: nat := 0x7fff_fff0

  /** nunits as malloc computes it, in 32 bits. */
  function Units32(nbytes: nat): nat { (nbytes + HEADER - 1) % 0x1_0000_0000 / HEADER + 1 }

  /** The argument that morecore's nu * sizeof(Header) becomes as sbrk's int. */
  function SbrkArgument(nu: nat): int {
    var w := Core(nu) * HEADER % 0x1_0000_0000;
    if w < 0x8000_0000 then w else w - 0x1_0000_0000
  }

  /** Of all 32-bit requests, exactly those up to MAXREQUEST get units enough and have sbrk asked
      for just those units; beyond, the argument is negative or zero, or the unit count has wrapped. */
  lemma RequestsServed(nbytes: nat)
    requires nbytes < 0x1_0000_0000
    ensures nbytes <= MAXREQUEST <==>
      nbytes <= (Units32(nbytes) - 1) * HEADER && SbrkArgument(Units32(nbytes)) == Core(Units32(nbytes)) * HEADER
    ensures nbytes <= MAXREQUEST ==> Units32(nbytes) == UnitsFor(nbytes)
  {
    if nbytes + HEADER - 1 < 0x1_0000_0000 {
      assert Units32(nbytes) == UnitsFor(nbytes);
      assert Core(UnitsFor(nbytes)) * HEADER <= 0x1_0000_0000;
    }
  }

  // ---------------------------------------------------------------- the circular list

  function Next(i: nat, len: nat): nat { if i + 1 < len then i + 1 else 0 }

  predicate LinkAt(mem: map<int, Header>, f: seq<Block>, i: nat)
    requires i < |f|
  {
    f[i].addr in mem && mem[f[i].addr] == Header(f[Next(i, |f|)].addr, f[i].size)
  }

  /** The headers in memory link the blocks of f into a circle. */
  predicate Linked(mem: map<int, Header>, f: seq<Block>) {
    forall i :: 0 <= i < |f| ==> LinkAt(mem, f, i)
  }

  /** How far the search at index i is from index k, going round. */
  function Distance(i: nat, k: nat, len: nat): nat
    requires i < len && k < len
  {
    if i <= k then k - i else len - i + k
  }

  lemma AddrsDiffer(f: seq<Block>, i: nat, j: nat)
    requires Ordered(f) && i < |f| && j < |f| && i != j
    ensures f[i].addr != f[j].addr && (i < j <==> f[i].addr < f[j].addr)
  {
    if i < j { OrderedAt(f, i, j); } else { OrderedAt(f, j, i); }
  }

  /** The place of address a among the blocks. */
  lemma {:induction false} Position(f: seq<Block>, a: int) returns (k: nat)
    requires Ordered(f) && f[0].addr < a && forall i :: 0 <= i < |f| ==> f[i].addr != a
    ensures k < |f| && f[k].addr < a && (k + 1 < |f| ==> a < f[k + 1].addr)
    decreases |f|
  {
    if |f| == 1 || f[|f| - 1].addr < a {
      k := |f| - 1;
    } else {
      Shorter(f);
      k := Position(f[..|f| - 1], a);
    }
  }

  /** free()'s loop test, at index i of the circle. */
  predicate StopsAt(f: seq<Block>, i: nat, a: int)
    requires i < |f|
  {
    var p, ptr := f[i].addr, f[Next(i, |f|)].addr;
    (a > p && a < ptr) || (p >= ptr && (a > p || a < ptr))
  }

  /** free()'s search stops exactly at the block below a. */
  lemma StopsExactly(f: seq<Block>, i: nat, k: nat, a: int)
    requires Ordered(f) && i < |f| && k < |f| && f[0].addr < a
    requires f[k].addr < a && (k + 1 < |f| ==> a < f[k + 1].addr)
    ensures StopsAt(f, i, a) <==> i == k
  {
    if i != k { AddrsDiffer(f, i, k); }
    if i + 1 < |f| {
      AddrsDiffer(f, i, i + 1);
      if i + 1 != k { AddrsDiffer(f, i + 1, k); }
      if k + 1 < |f| && i != k + 1 { AddrsDiffer(f, i, k + 1); }
    } else {
      if i > 0 { AddrsDiffer(f, 0, i); }
      if k + 1 < |f| && i != k + 1 { AddrsDiffer(f, i, k + 1); }
    }
  }

  // ---------------------------------------------------------------- relinking

  /** The header updates of free(), p being the k-th block and b the freed one. */
  function FreedMem(mem: map<int, Header>, f: seq<Block>, k: nat, b: Block): map<int, Header>
    requires k < |f| && Linked(mem, f)
  {
    var p := f[k].addr;
    var next := f[Next(k, |f|)].addr;
    assert LinkAt(mem, f, k) && LinkAt(mem, f, Next(k, |f|));
    var hb := if b.End() == next then Header(mem[next].ptr, b.size + mem[next].size) else Header(next, b.size);
    var m := mem[b.addr := hb];
    if p + m[p].size == b.addr then m[p := Header(m[b.addr].ptr, m[p].size + m[b.addr].size)]
    else m[p := m[p].(ptr := b.addr)]
  }

  method RelinkFreed(mem: map<int, Header>, bp: int, p: int, ghost f: seq<Block>, ghost k: nat) returns (m: map<int, Header>)
    requires k < |f| && Linked(mem, f) && p == f[k].addr && p != bp && bp in mem
    ensures m == FreedMem(mem, f, k, Block(bp, mem[bp].size))
  {
    assert LinkAt(mem, f, k) && LinkAt(mem, f, Next(k, |f|));
    m := mem;
    var next := m[p].ptr;
    if bp + m[bp].size == next {
      m := m[bp := Header(m[next].ptr, m[bp].size + m[next].size)];
    } else {
      m := m[bp := m[bp].(ptr := next)];
    }
    if p + m[p].size == bp {
      m := m[p := Header(m[bp].ptr, m[p].size + m[bp].size)];
    } else {
      m := m[p := m[p].(ptr := bp)];
    }
  }

  lemma FreedLinks(mem: map<int, Header>, f: seq<Block>, k: nat, b: Block)
    requires Ordered(f) && Linked(mem, f) && Between(f, k, b) && b.size > 0 && f[0].addr < b.addr
    requires forall i :: 0 <= i < |f| ==> f[i].addr != b.addr
    ensures Linked(FreedMem(mem, f, k, b), Insert(f, k, b))
  {
    var r, m := Insert(f, k, b), FreedMem(mem, f, k, b);
    assert LinkAt(mem, f, k) && LinkAt(mem, f, Next(k, |f|));
    var at := if JoinsLow(f, k, b) then k else k + 1;
    var skip := |f| - |r|;
    if k > 0 { AddrsDiffer(f, 0, k); }
    forall i | 0 <= i < |r| ensures LinkAt(m, r, i) {
      if i < k {
        assert LinkAt(mem, f, i);
        AddrsDiffer(f, i, k);
      } else if i > at {
        assert r[i] == f[i + skip];
        assert LinkAt(mem, f, i + skip);
        AddrsDiffer(f, i + skip, k);
      }
    }
  }

  /** The header updates of malloc() when it takes n units from the k-th block. */
  function TakenMem(mem: map<int, Header>, f: seq<Block>, k: nat, n: nat): map<int, Header>
    requires 0 < k < |f| && n <= f[k].size && Linked(mem, f)
  {
    assert LinkAt(mem, f, k) && LinkAt(mem, f, k - 1);
    var p := f[k].addr;
    if mem[p].size == n then mem[f[k - 1].addr := mem[f[k - 1].addr].(ptr := mem[p].ptr)]
    else mem[p := mem[p].(size := mem[p].size - n)][f[k].End() - n := Header(0, n)]
  }

  method RelinkTaken(mem: map<int, Header>, prevp: int, p: int, n: nat, ghost f: seq<Block>, ghost k: nat)
    returns (m: map<int, Header>, q: int)
    requires 0 < k < |f| && n <= f[k].size && Linked(mem, f) && p == f[k].addr && prevp == f[k - 1].addr
    ensures m == TakenMem(mem, f, k, n) && q == f[k].End() - n
  {
    assert LinkAt(mem, f, k) && LinkAt(mem, f, k - 1);
    m, q := mem, p;
    if m[p].size == n {
      m := m[prevp := m[prevp].(ptr := m[p].ptr)];
    } else {
      m := m[p := m[p].(size := m[p].size - n)];
      q := p + m[p].size;
      m := m[q := Header(0, n)];
    }
  }

  lemma TakenLinks(mem: map<int, Header>, f: seq<Block>, k: nat, n: nat)
    requires Ordered(f) && Linked(mem, f) && 0 < k < |f| && 0 < n <= f[k].size
    ensures Linked(TakenMem(mem, f, k, n), Take(f, k, n))
    ensures var m := TakenMem(mem, f, k, n); f[k].End() - n in m && m[f[k].End() - n].size == n
  {
    var r, m := Take(f, k, n), TakenMem(mem, f, k, n);
    assert LinkAt(mem, f, k) && LinkAt(mem, f, k - 1);
    AddrsDiffer(f, k - 1, k);
    forall i | 0 <= i < |r| ensures LinkAt(m, r, i) {
      var j := if |r| < |f| && i >= k then i + 1 else i;
      assert LinkAt(mem, f, j);
      if j != k { AddrsDiffer(f, j, k); if j > k { OrderedAt(f, k, j); } }
      if j != k - 1 { AddrsDiffer(f, j, k - 1); }
    }
  }

  // ---------------------------------------------------------------- the heap

  /** The allocated blocks: header address and size, and the block each of their units is in. */
  datatype Held = Held(alloc: map<int, nat>, owner: map<int, int>)

  /** No block is empty, and every unit of a block belongs to it and to no other. */
  ghost predicate Owned(h: Held) {
    && (forall a :: a in h.alloc ==> h.alloc[a] > 0)
    && (forall u :: u in h.owner ==> h.owner[u] in h.alloc && Inside(u, h.owner[u], h.alloc[h.owner[u]]))
    && (forall a, u :: a in h.alloc && Inside(u, a, h.alloc[a]) ==> u in h.owner && h.owner[u] == a)
  }

  /** The n units from a on come to belong to the block at a. */
  ghost function Own(owner: map<int, int>, a: int, n: nat): map<int, int> {
    if n == 0 then owner else Own(owner, a, n - 1)[a + n - 1 := a]
  }

  ghost function Hold(h: Held, a: int, n: nat): Held {
    Held(h.alloc[a := n], Own(h.owner, a, n))
  }

  ghost function Release(h: Held, a: int): Held
    requires a in h.alloc
  {
    Held(h.alloc - {a}, h.owner - Range(a, h.alloc[a]))
  }

  lemma {:induction false} OwnIs(owner: map<int, int>, a: int, n: nat)
    ensures Own(owner, a, n).Keys == owner.Keys + Range(a, n)
    ensures forall u :: u in Own(owner, a, n) ==> Own(owner, a, n)[u] == if u in Range(a, n) then a else owner[u]
  {
    if n > 0 { OwnIs(owner, a, n - 1); }
  }

  lemma HoldOwned(h: Held, a: int, n: nat)
    requires Owned(h) && n > 0 && h.owner.Keys !! Range(a, n)
    ensures a !in h.alloc && Owned(Hold(h, a, n)) && Hold(h, a, n).owner.Keys == h.owner.Keys + Range(a, n)
  {
    OwnIs(h.owner, a, n);
    assert a in Range(a, n);
    if a in h.alloc { assert Inside(a, a, h.alloc[a]); }
  }

  lemma ReleaseOwned(h: Held, a: int)
    requires Owned(h) && a in h.alloc
    ensures Range(a, h.alloc[a]) <= h.owner.Keys && Owned(Release(h, a))
  {
  }

  /** Releasing undoes holding. */
  lemma HoldRelease(h: Held, a: int, n: nat)
    requires Owned(h) && n > 0 && h.owner.Keys !! Range(a, n)
    ensures Release(Hold(h, a, n), a) == h
  {
    HoldOwned(h, a, n);
    OwnIs(h.owner, a, n);
    assert h.alloc[a := n] - {a} == h.alloc;
    assert Own(h.owner, a, n) - Range(a, n) == h.owner;
  }

  /** The allocator's books: the free list in address order with base first, freep's place in
      it, the allocated blocks, and the units obtained from sbrk. */
  datatype Book = Book(list: seq<Block>, at: nat, held: Held, got: set<int>)

  /** The free list is ordered, disjoint and coalesced; the units obtained from sbrk are exactly
      the free ones and the allocated ones, and each belongs to one block. */
  ghost predicate Balanced(base: int, k: Book) {
    && Ordered(k.list) && k.list[0].addr == base && k.at < |k.list| && Owned(k.held)
    && k.got == Units(k.list) + k.held.owner.Keys && Units(k.list) !! k.held.owner.Keys
    && (forall u :: u in k.got ==> base < u)
  }

  /** The headers in memory say what the books say: the free list is circular, freep is on it,
      and allocated blocks carry their sizes. */
  ghost predicate Shows(mem: map<int, Header>, freep: Option<int>, k: Book) {
    && (forall a :: a in k.held.alloc ==> a in mem && mem[a].size == k.held.alloc[a])
    && k.at < |k.list| && freep == Some(k.list[k.at].addr) && Linked(mem, k.list)
  }

  ghost function Freed(k: Book, i: nat, bp: int): Book
    requires i < |k.list| && bp in k.held.alloc
  {
    k.(list := Insert(k.list, i, Block(bp, k.held.alloc[bp])), at := i, held := Release(k.held, bp))
  }

  ghost function Taken(k: Book, i: nat, n: nat): Book
    requires 0 < i < |k.list| && n <= k.list[i].size
  {
    k.(list := Take(k.list, i, n), at := i - 1, held := Hold(k.held, k.list[i].End() - n, n))
  }

  /** n fresh units at hp enter the books as an allocated block. */
  ghost function Extended(k: Book, hp: int, n: nat): Book {
    k.(held := Hold(k.held, hp, n), got := k.got + Range(hp, n))
  }

  /** A header on the free list is not inside an allocated block. */
  lemma HeadersApart(base: int, k: Book, i: nat)
    requires Balanced(base, k) && i < |k.list|
    ensures k.list[i].addr !in k.held.owner && k.list[i].addr !in k.held.alloc
  {
    var a := k.list[i].addr;
    if i > 0 {
      assert Follows(k.list, i);
      BlockCovered(k.list, i);
      assert a in Range(a, k.list[i].size);
    }
    assert a !in k.held.owner;
    if a in k.held.alloc { assert Inside(a, a, k.held.alloc[a]); }
  }

  /** An allocated block lies between two neighbours of the free list. */
  lemma AllocatedFits(base: int, k: Book, bp: int) returns (i: nat)
    requires Balanced(base, k) && bp in k.held.alloc
    ensures i < |k.list| && k.list[i].addr < bp && (i + 1 < |k.list| ==> bp < k.list[i + 1].addr)
    ensures Between(k.list, i, Block(bp, k.held.alloc[bp])) && base < bp
    ensures forall j :: 0 <= j < |k.list| ==> k.list[j].addr != bp
  {
    var n := k.held.alloc[bp];
    assert Inside(bp, bp, n);
    assert bp in k.got;
    forall j | 0 <= j < |k.list| ensures k.list[j].addr != bp {
      HeadersApart(base, k, j);
    }
    i := Position(k.list, bp);
    BlockCovered(k.list, i);
    assert bp !in Range(k.list[i].addr, k.list[i].size);
    if i + 1 < |k.list| {
      HeadersApart(base, k, i + 1);
      assert !Inside(k.list[i + 1].addr, bp, n);
    }
  }

  // ---------------------------------------------------------------- the books stay balanced

  lemma FreedBalanced(base: int, k: Book, i: nat, bp: int)
    requires Balanced(base, k) && bp in k.held.alloc && Between(k.list, i, Block(bp, k.held.alloc[bp])) && base < bp
    ensures Balanced(base, Freed(k, i, bp))
  {
    var b := Block(bp, k.held.alloc[bp]);
    InsertOrdered(k.list, i, b);
    InsertUnits(k.list, i, b);
    ReleaseOwned(k.held, bp);
  }

  lemma FreedShown(mem: map<int, Header>, freep: Option<int>, base: int, k: Book, i: nat, bp: int)
    requires Balanced(base, k) && Shows(mem, freep, k) && bp in k.held.alloc && base < bp
    requires Between(k.list, i, Block(bp, k.held.alloc[bp])) && forall j :: 0 <= j < |k.list| ==> k.list[j].addr != bp
    ensures Shows(FreedMem(mem, k.list, i, Block(bp, k.held.alloc[bp])), Some(k.list[i].addr), Freed(k, i, bp))
  {
    FreedLinks(mem, k.list, i, Block(bp, k.held.alloc[bp]));
    HeadersApart(base, k, i);
  }

  /** Moving the units r from the free ones u to the allocated ones k. */
  lemma Handover(got: set<int>, u: set<int>, k: set<int>, t: set<int>, r: set<int>)
    requires got == u + k && u !! k && t + r == u && t !! r
    ensures k !! r && got == t + (k + r) && t !! (k + r)
  {
  }

  /** The units taken were free, and the rest of the free units stay apart from the allocated ones. */
  lemma TakenUnits(base: int, k: Book, i: nat, n: nat, a: int, t: seq<Block>)
    requires Balanced(base, k) && 0 < i < |k.list| && 0 < n <= k.list[i].size
    requires a == k.list[i].End() - n && t == Take(k.list, i, n)
    ensures k.held.owner.Keys !! Range(a, n)
    ensures k.got == Units(t) + (k.held.owner.Keys + Range(a, n)) && Units(t) !! (k.held.owner.Keys + Range(a, n))
  {
    TakeUnits(k.list, i, n);
    Handover(k.got, Units(k.list), k.held.owner.Keys, Units(t), Range(a, n));
  }

  lemma TakenFresh(base: int, k: Book, i: nat, n: nat)
    requires Balanced(base, k) && 0 < i < |k.list| && 0 < n <= k.list[i].size
    ensures k.list[i].End() - n !in k.held.alloc
  {
    TakenUnits(base, k, i, n, k.list[i].End() - n, Take(k.list, i, n));
    HoldOwned(k.held, k.list[i].End() - n, n);
  }

  lemma TakenBalanced(base: int, k: Book, i: nat, n: nat)
    requires Balanced(base, k) && 0 < i < |k.list| && 0 < n <= k.list[i].size
    ensures Balanced(base, Taken(k, i, n))
  {
    var a, t := k.list[i].End() - n, Take(k.list, i, n);
    assert Taken(k, i, n) == k.(list := t, at := i - 1, held := Hold(k.held, a, n));
    TakenList(base, k, i, n, a, t);
    HandOut(base, k, t, i - 1, a, n);
  }

  lemma TakenList(base: int, k: Book, i: nat, n: nat, a: int, t: seq<Block>)
    requires Balanced(base, k) && 0 < i < |k.list| && 0 < n <= k.list[i].size
    requires a == k.list[i].End() - n && t == Take(k.list, i, n)
    ensures Ordered(t) && t[0] == k.list[0] && i - 1 < |t| && k.held.owner.Keys !! Range(a, n)
    ensures k.got == Units(t) + (k.held.owner.Keys + Range(a, n)) && Units(t) !! (k.held.owner.Keys + Range(a, n))
  {
    TakeOrdered(k.list, i, n);
    TakenUnits(base, k, i, n, a, t);
  }

  /** Handing out n units at a that the free list t no longer covers. */
  lemma HandOut(base: int, k: Book, t: seq<Block>, at: nat, a: int, n: nat)
    requires Balanced(base, k) && Ordered(t) && t[0] == k.list[0] && at < |t| && n > 0
    requires k.held.owner.Keys !! Range(a, n)
    requires k.got == Units(t) + (k.held.owner.Keys + Range(a, n)) && Units(t) !! (k.held.owner.Keys + Range(a, n))
    ensures Balanced(base, k.(list := t, at := at, held := Hold(k.held, a, n)))
  {
    HoldOwned(k.held, a, n);
    BalancedAgain(base, k, t, at, Hold(k.held, a, n));
  }

  lemma BalancedAgain(base: int, k: Book, t: seq<Block>, at: nat, h: Held)
    requires Balanced(base, k) && Ordered(t) && t[0] == k.list[0] && at < |t| && Owned(h)
    requires k.got == Units(t) + h.owner.Keys && Units(t) !! h.owner.Keys
    ensures Balanced(base, k.(list := t, at := at, held := h))
  {
  }

  lemma TakenShown(mem: map<int, Header>, freep: Option<int>, base: int, k: Book, i: nat, n: nat)
    requires Balanced(base, k) && Shows(mem, freep, k) && 0 < i < |k.list| && 0 < n <= k.list[i].size
    ensures Shows(TakenMem(mem, k.list, i, n), Some(k.list[i - 1].addr), Taken(k, i, n))
  {
    TakenLinks(mem, k.list, i, n);
    HeadersApart(base, k, i);
    HeadersApart(base, k, i - 1);
  }

  lemma TakenSound(mem: map<int, Header>, freep: Option<int>, base: int, k: Book, i: nat, n: nat)
    requires Balanced(base, k) && Shows(mem, freep, k) && 0 < i < |k.list| && 0 < n <= k.list[i].size
    ensures k.list[i].End() - n !in k.held.alloc && Balanced(base, Taken(k, i, n))
    ensures Shows(TakenMem(mem, k.list, i, n), Some(k.list[i - 1].addr), Taken(k, i, n))
  {
    TakenFresh(base, k, i, n);
    TakenBalanced(base, k, i, n);
    TakenShown(mem, freep, base, k, i, n);
  }

  lemma ExtendedBalanced(base: int, k: Book, hp: int, n: nat)
    requires Balanced(base, k) && n > 0 && Range(hp, n) !! k.got && base < hp
    ensures Balanced(base, Extended(k, hp, n)) && Release(Hold(k.held, hp, n), hp) == k.held
  {
    HoldOwned(k.held, hp, n);
    HoldRelease(k.held, hp, n);
  }

  lemma ExtendedShown(mem: map<int, Header>, freep: Option<int>, base: int, k: Book, hp: int, n: nat)
    requires Balanced(base, k) && Shows(mem, freep, k) && n > 0 && Range(hp, n) !! k.got && base < hp
    ensures Shows(mem[hp := Header(0, n)], freep, Extended(k, hp, n))
  {
    var m := mem[hp := Header(0, n)];
    assert hp in Range(hp, n);
    forall i | 0 <= i < |k.list| ensures LinkAt(m, k.list, i) {
      assert LinkAt(mem, k.list, i);
      if i > 0 {
        assert Follows(k.list, i);
        BlockCovered(k.list, i);
        assert k.list[i].addr in Range(k.list[i].addr, k.list[i].size);
      }
    }
  }

  /** In a balanced book the free units and the allocated units add up to the units obtained. */
  lemma UnitsConserved(base: int, k: Book)
    requires Balanced(base, k)
    ensures |k.got| == Total(k.list) + |k.held.owner|
  {
    UnitsCount(k.list);
  }

  // ---------------------------------------------------------------- searching the circle

  /** Walking the circle from the block after `at` to index i has passed index j. */
  predicate Passed(at: nat, i: nat, j: nat) { if i > at then at < j < i else j > at || j < i }

  predicate NoneFits(f: seq<Block>, n: nat) { forall i :: 0 <= i < |f| ==> f[i].size < n }

  /** Every block passed on the way to index i is too small. */
  predicate TooSmall(f: seq<Block>, at: nat, i: nat, n: nat) {
    forall j :: 0 <= j < |f| && Passed(at, i, j) ==> f[j].size < n
  }

  lemma Advance(f: seq<Block>, at: nat, i: nat, n: nat)
    requires at < |f| && i < |f| && f[i].size < n
    ensures i == at && TooSmall(f, at, i, n) ==> NoneFits(f, n)
    ensures i != at && TooSmall(f, at, i, n) ==> TooSmall(f, at, Next(i, |f|), n)
  {
  }

  /** After a block of at least n units has been put on the list, some block fits. */
  lemma InsertedFits(f: seq<Block>, k: nat, b: Block, n: nat)
    requires k < |f| && n <= b.size
    ensures !NoneFits(Insert(f, k, b), n)
  {
    var at := if JoinsLow(f, k, b) then k else k + 1;
    assert Insert(f, k, b)[at].size >= n;
  }

  class Heap {
    const base: int
    var mem: map<int, Header>
    var freep: Option<int>
    ghost var book: Book

    ghost predicate Valid()
      reads this
    {
      && Balanced(base, book)
      && (if freep.Some? then Shows(mem, freep, book) else book == Book([Block(base, 0)], 0, Held(map[], map[]), {}))
    }

    constructor (base: int)
      ensures Valid() && this.base == base && freep == None
    {
      this.base := base;
      mem, freep := map[], None;
      book := Book([Block(base, 0)], 0, Held(map[], map[]), {});
      new;
      assert book.list[..0] == [];
    }

    function Ptr(p: int): int
      requires p in mem
      reads this
    {
      mem[p].ptr
    }

    /** free() of a block that malloc returned: it goes back to its place in the list, joined to
        each free neighbour it touches, and nothing else changes hands. */
    method Free(ap: int)
      requires Valid() && freep.Some? && ap - 1 in book.held.alloc
      modifies this
      ensures Valid() && freep.Some? && book.at < |old(book.list)|
      ensures book == Freed(old(book), book.at, ap - 1)
      ensures Between(old(book.list), book.at, Block(ap - 1, old(book.held.alloc[ap - 1])))
    {
      var bp := ap - 1;
      ghost var i := AllocatedFits(base, book, bp);
      var p := FindPlace(bp, i);
      FreedBalanced(base, book, i, bp);
      FreedShown(mem, freep, base, book, i, bp);
      var m := RelinkFreed(mem, bp, p, book.list, i);
      mem, freep, book := m, Some(p), Freed(book, i, bp);
    }

    /** free()'s search: goes round the circle until bp lies between p and its successor. */
    method FindPlace(bp: int, ghost k: nat) returns (p: int)
      requires Valid() && freep.Some? && base < bp
      requires k < |book.list| && book.list[k].addr < bp && (k + 1 < |book.list| ==> bp < book.list[k + 1].addr)
      ensures p == book.list[k].addr
    {
      ghost var list := book.list;
      p := freep.value;
      ghost var i: nat := book.at;
      assert LinkAt(mem, list, i);
      while !(bp > p && bp < Ptr(p))
        invariant i < |list| && p == list[i].addr && LinkAt(mem, list, i)
        decreases Distance(i, k, |list|)
      {
        StopsExactly(list, i, k, bp);
        if p >= Ptr(p) && (bp > p || bp < Ptr(p)) {
          return;
        }
        p := Ptr(p);
        i := Next(i, |list|);
        assert LinkAt(mem, list, i);
      }
      StopsExactly(list, i, k, bp);
    }

    /** What sbrk promises: its answer, if any, is n units above base that it never gave before. */
    ghost predicate SbrkAnswer(core: Option<int>, n: nat)
      reads this
    {
      core.Some? ==> Range(core.value, n) !! book.got && base < core.value
    }

    /** core is sbrk's answer to the request for Core(nu) units, which become free. */
    method Morecore(nu: nat, core: Option<int>) returns (ok: bool)
      requires Valid() && freep.Some? && SbrkAnswer(core, Core(nu))
      modifies this
      ensures Valid() && freep.Some? && (ok <==> core.Some?)
      ensures !ok ==> book == old(book)
      ensures ok ==> book.held.alloc == old(book.held.alloc) && book.held.owner == old(book.held.owner)
      ensures ok ==> book.got == old(book.got) + Range(core.value, Core(nu)) && book.at < |old(book.list)|
      ensures ok ==> book.list == Insert(old(book.list), book.at, Block(core.value, Core(nu)))
      ensures ok ==> !NoneFits(book.list, nu)
    {
      if core.None? {
        return false;
      }
      var hp, n := core.value, Core(nu);
      ExtendedBalanced(base, book, hp, n);
      ExtendedShown(mem, freep, base, book, hp, n);
      mem, book := mem[hp := Header(0, n)], Extended(book, hp, n);
      Free(hp + 1);
      InsertedFits(old(book.list), book.at, Block(hp, n), nu);
      ok := true;
    }

    /** malloc() has found block p, after prevp, to be large enough; a is the header of the part
        that is handed out. */
    method Carve(prevp: int, p: int, n: nat, ghost i: nat) returns (a: int)
      requires Valid() && freep.Some? && 0 < i < |book.list| && 0 < n <= book.list[i].size
      requires p == book.list[i].addr && prevp == book.list[i - 1].addr
      modifies this
      ensures Valid() && freep.Some? && a == old(book.list[i].End()) - n && a !in old(book.held.alloc)
      ensures book.held == Hold(old(book.held), a, n) && book.got == old(book.got)
      ensures book.list == Take(old(book.list), i, n)
    {
      TakenSound(mem, freep, base, book, i, n);
      var m;
      m, a := RelinkTaken(mem, prevp, p, n, book.list, i);
      mem, freep, book := m, Some(prevp), Taken(book, i, n);
    }

    /** One round of malloc()'s loop, from the block after freep back to freep: finds the first
        block of at least n units, if there is one. */
    method Search(n: nat) returns (found: bool, prevp: int, p: int, ghost i: nat)
      requires Valid() && freep.Some? && n > 0
      ensures found <==> !NoneFits(book.list, n)
      ensures found ==> 0 < i < |book.list| && book.list[i].size >= n && TooSmall(book.list, book.at, i, n)
      ensures found ==> p == book.list[i].addr && prevp == book.list[i - 1].addr
    {
      ghost var list, at := book.list, book.at;
      assert LinkAt(mem, list, at);
      prevp := freep.value;
      p := Ptr(prevp);
      i := Next(at, |list|);
      assert LinkAt(mem, list, i);
      while mem[p].size < n
        invariant i < |list| && p == list[i].addr && prevp == list[if i > 0 then i - 1 else |list| - 1].addr
        invariant LinkAt(mem, list, i) && TooSmall(list, at, i, n)
        decreases Distance(i, at, |list|)
      {
        Advance(list, at, i, n);
        if p == freep.value {
          if i != at { AddrsDiffer(list, i, at); }
          return false, prevp, p, i;
        }
        prevp, p := p, Ptr(p);
        i := Next(i, |list|);
        assert LinkAt(mem, list, i);
      }
      found := true;
    }

    /** The first call makes base a circle of its own. */
    method StartList()
      requires Valid()
      modifies this`mem, this`freep
      ensures Valid() && freep.Some?
    {
      if freep.None? {
        mem, freep := mem[base := Header(base, 0)], Some(base);
      }
    }

    /** malloc()'s loop until a block fits or sbrk fails. After morecore the source's loop goes on at
        the block after freep, as a new round does. */
    method FindBlock(n: nat, core: Option<int>) returns (ok: bool, calls: nat, prevp: int, p: int, ghost i: nat)
      requires Valid() && freep.Some? && n > 0 && SbrkAnswer(core, Core(n))
      modifies this
      ensures Valid() && freep.Some? && calls <= 1 && book.held == old(book.held)
      ensures (calls == 1 <==> NoneFits(old(book.list), n)) && (!ok <==> calls == 1 && core.None?)
      ensures calls == 1 && core.Some? ==> book.got == old(book.got) + Range(core.value, Core(n))
      ensures calls == 0 || core.None? ==> book == old(book)
      ensures ok ==> 0 < i < |book.list| && n <= book.list[i].size && p == book.list[i].addr && prevp == book.list[i - 1].addr
    {
      calls := 0;
      ok, prevp, p, i := Search(n);
      if !ok {
        calls := 1;
        ok := Morecore(n, core);
        if ok {
          ok, prevp, p, i := Search(n);
        }
      }
    }

    /** malloc() of n units, the list being there. */
    method Allocate(n: nat, core: Option<int>) returns (r: Option<int>, calls: nat)
      requires Valid() && freep.Some? && n > 0 && SbrkAnswer(core, Core(n))
      modifies this
      ensures Valid() && freep.Some? && calls <= 1
      ensures (calls == 1 <==> NoneFits(old(book.list), n)) && (r.None? <==> calls == 1 && core.None?)
      ensures calls == 1 && core.Some? ==> book.got == old(book.got) + Range(core.value, Core(n))
      ensures calls == 0 || core.None? ==> book.got == old(book.got)
      ensures r.None? ==> book == old(book)
      ensures r.Some? ==> r.value - 1 !in old(book.held.alloc) && book.held == Hold(old(book.held), r.value - 1, n)
    {
      var ok, prevp, p;
      ghost var i;
      ok, calls, prevp, p, i := FindBlock(n, core);
      if !ok {
        return None, calls;
      }
      var a := Carve(prevp, p, n, i);
      r := Some(a + 1);
    }

    /** core is sbrk's answer should malloc have to ask; calls counts the calls of morecore.
        malloc asks exactly when no free block is large enough, at most once, and fails only if
        sbrk does; otherwise it hands out a block of the units needed, carved from the free
        ones, and leaves every other allocated block alone. */
    method Malloc(nbytes: nat, core: Option<int>) returns (r: Option<int>, calls: nat)
      requires Valid() && nbytes <= MAXREQUEST && SbrkAnswer(core, Core(UnitsFor(nbytes)))
      modifies this
      ensures Valid() && freep.Some? && calls <= 1
      ensures calls == 1 <==> NoneFits(old(book.list), UnitsFor(nbytes))
      ensures r.None? <==> calls == 1 && core.None?
      ensures calls == 1 && core.Some? ==> book.got == old(book.got) + Range(core.value, Core(UnitsFor(nbytes)))
      ensures calls == 0 || core.None? ==> book.got == old(book.got)
      ensures r.None? ==> book == old(book)
      ensures r.Some? ==> r.value - 1 !in old(book.held.alloc)
      ensures r.Some? ==> book.held == Hold(old(book.held), r.value - 1, UnitsFor(nbytes))
    {
      StartList();
      r, calls := Allocate(UnitsFor(nbytes), core);
    }
  }
}
