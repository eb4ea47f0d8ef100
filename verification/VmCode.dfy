/** kalloc, kfree, walkpgdir, mappages, setupkvm, allocuvm, deallocuvm, freevm and copyuvm (vm.c,
    kalloc.c), on page numbers, with what each leaves behind when memory runs out. */
module VmCode {
  import opened Options
  import opened Vm

  /** One line of the kernel's own mappings. */
  datatype Kmap = Kmap(v: nat, n: nat, frame: nat, perm: nat)

  const PTE_W: nat := 2
  const PTE_U: nat := 4

  /** Whose the frames are. */
  datatype Book = Book(dirs: set<nat>, owner: map<nat, Slot>, hand: set<nat>)

  ghost predicate Owned(pages: seq<Frame>, free: seq<nat>, first: nat, b: Book) {
    Places(pages, first, b.dirs, b.owner) && Accounts(free, |pages|, first, b.owner, b.hand)
  }

  /** Frames in hand or holding user data keep their contents. */
  ghost predicate DataSame(p: seq<Frame>, q: seq<Frame>, b: Book) {
    |p| == |q| && forall f :: 0 <= f < |p| && p[f].Data? && (f in b.owner || f in b.hand) ==> q[f] == p[f]
  }

  /** Contents that were kept twice were kept, as far as frames are still in use. */
  lemma DataTrans(p: seq<Frame>, q: seq<Frame>, r: seq<Frame>, b: Book, c: Book)
    requires DataSame(p, q, b) && c.owner.Keys <= b.owner.Keys && c.hand <= b.hand
    requires DataSame(q, r, b) || DataSame(q, r, c)
    ensures DataSame(p, r, c)
  {
  }

  class Kernel {
    const first: nat
    var pages: seq<Frame>
    var free: seq<nat>
    ghost var book: Book

    ghost predicate Valid()
      reads this
    {
      Owned(pages, free, first, book)
    }

    /** freerange at boot: every frame from `first` on ends up on the free list. */
    constructor (first: nat, n: nat)
      requires first > 0
      ensures Valid() && this.first == first && |pages| == n && book == Book({}, map[], {})
    {
      this.first := first;
      pages := seq(n, _ => Junk);
      free := [];
      book := Book({}, map[], From(first, n));
      new;
      forall f: nat ensures f in From(first, n) <==> first <= f < n {
        FromIs(first, n, f);
      }
      var p := first;
      while p < n
        invariant first <= p && (p <= n || p == first) && Valid() && |pages| == n && this.first == first
        invariant book == Book({}, map[], From(p, n))
      {
        FromIs(p + 1, n, p);
        Kfree(p);
        p := p + 1;
      }
    }

    /** kalloc: the first frame of the free list, none if it is empty. */
    method Kalloc() returns (r: Option<nat>)
      requires Valid()
      modifies this`free, this`book
      ensures Valid() && (r.None? <==> old(free) == [])
      ensures r.None? ==> free == old(free) && book == old(book)
      ensures r.Some? ==> free == old(free)[1..] && r.value == old(free)[0] && Managed(|pages|, first, r.value)
      ensures r.Some? ==> r.value !in old(book).owner && r.value !in old(book).hand
      ensures r.Some? ==> book == old(book).(hand := old(book).hand + {r.value})
    {
      if free == [] {
        return None;
      }
      KallocAccounts(free, |pages|, first, book.owner, book.hand);
      r := Some(free[0]);
      book := book.(hand := book.hand + {free[0]});
      free := free[1..];
    }

    /** kfree of a frame in hand: filled with junk and put at the head of the list. */
    method Kfree(f: nat)
      requires Valid() && f in book.hand
      modifies this
      ensures Valid() && free == [f] + old(free) && book == old(book).(hand := old(book).hand - {f})
      ensures pages == old(pages)[f := Junk] && MapsSame(old(pages), pages, book.dirs)
    {
      KfreeAccounts(free, |pages|, first, book.owner, book.hand, f);
      FillFrame(pages, first, book.dirs, book.owner, f, Junk);
      pages := pages[f := Junk];
      free := [f] + free;
      book := book.(hand := book.hand - {f});
    }

    /** memset or memmove into a frame in hand. */
    method Fill(f: nat, fr: Frame)
      requires Valid() && f in book.hand
      modifies this`pages
      ensures Valid() && pages == old(pages)[f := fr] && MapsSame(old(pages), pages, book.dirs)
    {
      FillFrame(pages, first, book.dirs, book.owner, f, fr);
      pages := pages[f := fr];
    }

    /** walkpgdir: finds the table for page v, making one if asked; no mapping changes. */
    method Walkpgdir(pd: nat, v: nat, alloc: bool) returns (ok: bool)
      requires Valid() && pd in book.dirs && v < NPAGES
      modifies this
      ensures Valid() && (ok <==> HasTable(pages, pd, v))
      ensures ok <==> HasTable(old(pages), pd, v) || (alloc && old(free) != [])
      ensures book.dirs == old(book).dirs && book.hand == old(book).hand
      ensures !ok || HasTable(old(pages), pd, v) ==> pages == old(pages) && free == old(free) && book == old(book)
      ensures MapsSame(old(pages), pages, book.dirs) && DataSame(old(pages), pages, old(book))
      ensures Keeps(old(book), book) && Adds(old(book), book, pd) && |old(free)| <= |free| + 1
    {
      DirIsTable(pages, first, book.dirs, book.owner, pd);
      if Entry(pages, pd, v / NPT).Present() {
        return true;
      }
      if !alloc {
        return false;
      }
      var r := Kalloc();
      if r.None? {
        return false;
      }
      var f := r.value;
      NewTable(pages, first, book.dirs, book.owner, pd, v / NPT, f);
      PlaceAccounts(free, |pages|, first, book, f, Tab(pd, v / NPT));
      pages := WithTable(pages, pd, v / NPT, f);
      book := Placed(book, f, Tab(pd, v / NPT));
      ok := true;
    }

    /** The assignment to *pte in mappages. */
    method SetPte(pd: nat, v: nat, f: nat, perm: nat)
      requires Valid() && pd in book.dirs && v < NPAGES && HasTable(pages, pd, v) && !Walk(pages, pd, v).Present()
      requires v < UPAGES ==> f in book.hand && pages[f].Data?
      modifies this`pages, this`book
      ensures Valid() && book == if v < UPAGES then Placed(old(book), f, Page(pd, v)) else old(book)
      ensures MapsBut(old(pages), pages, book.dirs, pd, v, MakePte(f, perm)) && DataSame(old(pages), pages, old(book))
    {
      var w := MakePte(f, perm);
      EntryMaps(pages, first, book.dirs, book.owner, pd, v, w);
      if v < UPAGES {
        MapPage(pages, first, book.dirs, book.owner, pd, v, w);
        PlaceAccounts(free, |pages|, first, book, f, Page(pd, v));
        pages := WithEntry(pages, pd, v, w);
        book := Placed(book, f, Page(pd, v));
      } else {
        MapKernel(pages, first, book.dirs, book.owner, pd, v, w);
        pages := WithEntry(pages, pd, v, w);
      }
    }

    /** mappages for one page: a user page takes its frame from the hand, a kernel page maps memory
        without taking it. When there is no memory for a table nothing has changed. */
    method MapOne(pd: nat, v: nat, f: nat, perm: nat) returns (r: Mapping)
      requires Valid() && pd in book.dirs && v < NPAGES
      requires v < UPAGES ==> f in book.hand && pages[f].Data?
      modifies this
      ensures Valid() && (!r.NoMemory? ==> (r.Remap? <==> Walk(old(pages), pd, v).Present()))
      ensures r.Done? ==> book.dirs == old(book).dirs && Keeps(old(book), book) && Adds(old(book), book, pd)
      ensures r.Done? ==> book.hand == if v < UPAGES then old(book).hand - {f} else old(book).hand
      ensures r.Done? && v < UPAGES ==> f in book.owner
      ensures r.Done? ==> MapsBut(old(pages), pages, book.dirs, pd, v, MakePte(f, perm)) && DataSame(old(pages), pages, old(book))
      ensures r.NoMemory? ==> free == [] && pages == old(pages) && free == old(free) && book == old(book)
      ensures r.Done? ==> |old(free)| <= |free| + 1
    {
      var ok := Walkpgdir(pd, v, true);
      if !ok {
        return NoMemory;
      }
      assert Walk(pages, pd, v) == Walk(old(pages), pd, v);
      if Walk(pages, pd, v).Present() {
        return Remap;
      }
      ghost var p := pages;
      SetPte(pd, v, f, perm);
      MapsSameBut(old(pages), p, pages, book.dirs, pd, v, MakePte(f, perm));
      r := Done;
    }

    /** One round of mappages, k pages having been mapped since the state was p0 and b0. */
    method MapNext(pd: nat, v: nat, k: nat, f: nat, perm: nat, ghost p0: seq<Frame>, ghost b0: Book) returns (r: Mapping)
      requires Valid() && pd in book.dirs && v + k < NPAGES && RangeMapped(p0, b0, pages, book, pd, v, k, f, perm)
      requires v + k < UPAGES ==> f + k in book.hand && pages[f + k].Data?
      modifies this
      ensures Valid()
      ensures r.Done? ==> RangeMapped(p0, b0, pages, book, pd, v, k + 1, f, perm) && |old(free)| <= |free| + 1
      ensures r.NoMemory? ==> RangeMapped(p0, b0, pages, book, pd, v, k, f, perm) && free == old(free) == []
      ensures r.Remap? ==> Walk(p0, pd, v + k).Present()
    {
      assert Walk(pages, pd, v + k) == Walk(p0, pd, v + k);
      r := MapOne(pd, v + k, f + k, perm);
      if r.Done? {
        RangeMappedNext(p0, old(pages), pages, b0, old(book), book, pd, v, k, f, perm);
      }
    }

    /** mappages: n pages from v on get the n frames from f on. It can run out of memory only for
        tables, at most one a page, and then leaves the first k pages mapped; it panics only if one
        of the pages is mapped already. */
    method Mappages(pd: nat, v: nat, n: nat, f: nat, perm: nat) returns (r: Mapping, ghost k: nat)
      requires Valid() && pd in book.dirs && n > 0 && v + n <= NPAGES
      requires forall j :: f <= j < f + n && v + j - f < UPAGES ==> j in book.hand && pages[j].Data?
      modifies this
      ensures Valid() && k <= n && (!r.Remap? ==> RangeMapped(old(pages), old(book), pages, book, pd, v, k, f, perm))
      ensures r.Done? ==> k == n && |old(free)| <= |free| + n
      ensures r.NoMemory? ==> k < n && free == [] && |old(free)| < n
      ensures r.Remap? ==> exists u :: v <= u < v + n && Walk(old(pages), pd, u).Present()
    {
      ghost var p0, b0 := pages, book;
      var i := 0;
      while i < n
        invariant 0 <= i <= n && Valid() && RangeMapped(p0, b0, pages, book, pd, v, i, f, perm) && |old(free)| <= |free| + i
      {
        k := i;
        r := MapNext(pd, v, i, f, perm, p0, b0);
        if !r.Done? {
          return;
        }
        i := i + 1;
      }
      r, k := Done, n;
    }

    /** One page of deallocuvm: its frame goes back to the free list. */
    method FreePage(pd: nat, v: nat)
      requires Valid() && pd in book.dirs && v < UPAGES && HasTable(pages, pd, v) && Walk(pages, pd, v).Present()
      modifies this
      ensures Valid() && book.dirs == old(book).dirs && book.hand == old(book).hand
      ensures book.owner == old(book).owner - {Walk(old(pages), pd, v).frame}
      ensures Walk(old(pages), pd, v).frame in old(book).owner && old(book).owner[Walk(old(pages), pd, v).frame] == Page(pd, v)
      ensures MapsBut(old(pages), pages, book.dirs, pd, v, NOENTRY) && TablesSame(old(pages), pages, pd)
      ensures free == [Walk(old(pages), pd, v).frame] + old(free) && DataSame(old(pages), pages, book)
    {
      var f := Walk(pages, pd, v).frame;
      UnmapPage(pages, first, book.dirs, book.owner, pd, v, f);
      EntryMaps(pages, first, book.dirs, book.owner, pd, v, NOENTRY);
      TakeAccounts(free, |pages|, first, book, f);
      DirIsTable(pages, first, book.dirs, book.owner, pd);
      TabIsTable(pages, first, book.dirs, book.owner, pd, v / NPT);
      ghost var p, h := pages, book.hand;
      pages := WithEntry(pages, pd, v, NOENTRY);
      book := book.(owner := book.owner - {f}, hand := book.hand + {f});
      ghost var q := pages;
      Kfree(f);
      assert h + {f} - {f} == h;
      MapsButSame(p, q, pages, book.dirs, pd, v, NOENTRY);
    }

    /** deallocuvm on the pages from `from` to `to`: frees every mapped page except those it steps
        over, and changes nothing else. */
    method Deallocuvm(pd: nat, from: nat, to: nat)
      requires Valid() && pd in book.dirs && to <= UPAGES
      modifies this
      ensures Valid() && book.dirs == old(book).dirs && book.hand == old(book).hand
      ensures Freed(old(pages), pages, book.dirs, pd, from, to) && TablesSame(old(pages), pages, pd)
      ensures Trimmed(old(book).owner, book.owner, old(pages), pd, from, to) && DataSame(old(pages), pages, book)
    {
      ghost var p0, b0 := pages, book;
      DirIsTable(pages, first, book.dirs, book.owner, pd);
      var a := from;
      while a < to
        invariant from <= a && Valid() && book.dirs == b0.dirs && book.hand == b0.hand
        invariant Freed(p0, pages, book.dirs, pd, from, if a < to then a else to) && TablesSame(p0, pages, pd)
        invariant Trimmed(b0.owner, book.owner, p0, pd, from, if a < to then a else to)
        invariant OnTrack(p0, pd, from, a) && DataSame(p0, pages, book)
      {
        ghost var p1, b1, o1 := pages, book, book.owner;
        var ok := HasTable(pages, pd, a);
        ghost var next := if ok then a + 1 else a + NPT;
        if ok && Walk(pages, pd, a).Present() {
          FreePage(pd, a);
          DataTrans(p0, p1, pages, b1, book);
        }
        FreedNext(p0, p1, pages, book.dirs, pd, from, to, a, next);
        TrimmedNext(b0.owner, o1, book.owner, p0, p1, first, book.dirs, pd, from, to, a, next);
        StaysOnTrack(p0, pd, from, a, next);
        a := if ok then a + 1 else a + NPT;
      }
    }

    /** freevm's loop over the directory, whose frames are all in hand since the state was p and b. */
    method FreeTables(pd: nat, dir: seq<Pte>, ghost p: seq<Frame>, ghost b: Book)
      requires Valid() && pages == p && Places(p, first, b.dirs, b.owner) && pd in b.dirs && pd < |p| && p[pd] == Table(dir) && |dir| == NPT
      requires book == Book(b.dirs - {pd}, b.owner - FramesOf(b.owner, pd), b.hand + FramesOf(b.owner, pd))
      requires forall f :: f in b.hand ==> f !in b.owner
      modifies this
      ensures Valid() && book == Book(b.dirs - {pd}, b.owner - FramesOf(b.owner, pd), b.hand + Left(b.owner, pd, NPT))
      ensures MapsSame(p, pages, book.dirs) && DataSame(p, pages, b)
    {
      ghost var o := book.owner;
      assert Left(b.owner, pd, 0) == FramesOf(b.owner, pd);
      var i := 0;
      while i < NPT
        invariant 0 <= i <= NPT && Valid() && book == Book(b.dirs - {pd}, o, b.hand + Left(b.owner, pd, i))
        invariant MapsSame(p, pages, book.dirs) && DataSame(p, pages, b)
      {
        LeftNext(p, first, b.dirs, b.owner, b.hand, free, pd, i);
        if dir[i].Present() {
          Kfree(dir[i].frame);
        }
        i := i + 1;
      }
    }

    /** freevm: every frame of the address space, pages and tables alike, is back on the free list,
        and no other frame is. */
    method Freevm(pd: nat)
      requires Valid() && pd in book.dirs
      modifies this
      ensures Valid() && book == Book(old(book).dirs - {pd}, old(book).owner - FramesOf(old(book).owner, pd), old(book).hand)
      ensures MapsSame(old(pages), pages, book.dirs) && DataSame(old(pages), pages, book)
    {
      ghost var p0, b0 := pages, book;
      Deallocuvm(pd, 0, UPAGES);
      ghost var p1, b1 := pages, book;
      AllFreed(p0, p1, b0.dirs, b0.owner, b1.owner, first, pd);
      Detach(pages, first, book.dirs, book.owner, pd);
      DetachAccounts(free, pages, first, book.dirs, book.owner, book.hand, pd);
      DirIsTable(pages, first, book.dirs, book.owner, pd);
      book := Book(b1.dirs - {pd}, b1.owner - FramesOf(b1.owner, pd), b1.hand + FramesOf(b1.owner, pd));
      FreeTables(pd, pages[pd].e, p1, b1);
      LeftLast(p1, first, b1.dirs, b1.owner, b1.hand, pd);
      Kfree(pd);
      assert book.hand == b0.hand;
      DataTrans(p0, p1, pages, b1, book);
    }

    /** One page of allocuvm or copyuvm: a frame with the given contents is mapped at user page v.
        When there is no memory for the page's table, the frame stays in hand. */
    method MapFresh(pd: nat, v: nat, bytes: seq<int>, perm: nat) returns (mem: Option<nat>, r: Mapping)
      requires Valid() && pd in book.dirs && v < UPAGES && !Walk(pages, pd, v).Present()
      modifies this
      ensures Valid() && book.dirs == old(book).dirs && !r.Remap? && (mem.None? ==> r.NoMemory?)
      ensures r.Done? ==> book.hand == old(book).hand && Keeps(old(book), book) && Adds(old(book), book, pd)
      ensures r.Done? ==> |pages| == |old(pages)| && DataSame(old(pages), pages, old(book))
      ensures r.Done? ==> FreshPage(old(pages), pages, book.dirs, old(book).owner, pd, v, bytes, perm)
      ensures r.NoMemory? ==> free == [] && |old(free)| < 2 && Kept(old(pages), old(book), pages, book)
      ensures r.NoMemory? ==> book.hand == old(book).hand + if mem.Some? then {mem.value} else {}
      ensures (mem.None? <==> old(free) == []) && (mem.Some? ==> mem.value !in old(book).hand && mem.value !in old(book).owner)
      ensures r.Done? ==> |old(free)| <= |free| + 2
    {
      r := NoMemory;
      mem := Kalloc();
      if mem.None? {
        return;
      }
      var f := mem.value;
      ghost var h := book.hand;
      Fill(f, Data(bytes));
      ghost var p := pages;
      assert Walk(p, pd, v) == Walk(old(pages), pd, v);
      r := MapOne(pd, v, f, perm);
      if r.Done? {
        MapsSameBut(old(pages), p, pages, book.dirs, pd, v, MakePte(f, perm));
        assert h - {f} == old(book).hand;
        assert MapBut(old(pages), pages, pd, v, MakePte(f, perm), pd, v);
      }
    }

    /** One page of allocuvm, the pages from `from` to m having been mapped since the state was p0
        and b0. */
    method AllocOne(pd: nat, a: nat, ghost p0: seq<Frame>, ghost b0: Book, ghost from: nat, ghost m: nat)
      returns (mem: Option<nat>, ghost done: nat)
      requires Valid() && pd in book.dirs && from <= m <= a < UPAGES && Growing(p0, b0, pages, book, pd, from, m)
      requires !Walk(p0, pd, a).Present() && (m < a ==> free == [])
      modifies this
      ensures Valid() && Growing(p0, b0, pages, book, pd, from, done)
      ensures mem.None? ==> done == m && book.hand == old(book).hand && |old(free)| < 2
      ensures mem.Some? ==> m == a && (done == a || done == a + 1)
      ensures mem.Some? && done == a + 1 ==> book.hand == old(book).hand && |old(free)| <= |free| + 2
      ensures mem.Some? && done == a ==>
        free == [] && |old(free)| < 2 && mem.value !in old(book).hand && book.hand == old(book).hand + {mem.value}
    {
      StillUnmapped(p0, pages, b0.dirs, b0.owner, pd, from, m, a);
      ghost var p1, b1 := pages, book;
      var r;
      mem, r := MapFresh(pd, a, ZeroBytes(), PTE_W + PTE_U);
      if r.Done? {
        GrowingNext(p0, b0, p1, b1, pages, book, first, pd, from, a);
        done := a + 1;
      } else {
        GrowingKept(p0, b0, p1, b1, pages, book, first, pd, from, m);
        done := m;
      }
    }

    /** allocuvm's loop over the pages from `from` to `to`, none of them mapped: each gets a zeroed
        frame of its own. When kalloc fails, the pages mapped so far are unmapped again; only tables stay.
        A failing mappages goes unnoticed: its frame is lost, and if it was for the last page the
        call still succeeds, without that page. Two free frames for every page avoid all this. */
    method AllocPages(pd: nat, from: nat, to: nat) returns (ok: bool)
      requires Valid() && pd in book.dirs && from <= to <= UPAGES
      requires forall u :: from <= u < to ==> !Walk(pages, pd, u).Present()
      modifies this
      ensures Valid() && book.dirs == old(book).dirs && Keeps(old(book), book) && DataSame(old(pages), pages, old(book))
      ensures OneLost(old(book).hand, book.hand)
      ensures !ok ==> MapsAlike(old(pages), pages, book.dirs) && OnlyTables(old(book), book, pd)
      ensures ok && book.hand == old(book).hand ==> Grown(old(pages), pages, book.dirs, old(book).owner, pd, from, to)
      ensures ok && book.hand != old(book).hand ==>
        from < to && free == [] && Grown(old(pages), pages, book.dirs, old(book).owner, pd, from, to - 1)
      ensures |old(free)| >= 2 * (to - from) ==> ok && book.hand == old(book).hand
    {
      ghost var p0, b0 := pages, book;
      ghost var m: nat := from;
      var a := from;
      while a < to
        invariant from <= m <= a <= to && Valid() && Growing(p0, b0, pages, book, pd, from, m)
        invariant Progress(b0.hand, book.hand, free, m, a)
        invariant if m == a then |old(free)| <= |free| + 2 * (a - from) else |old(free)| < 2 * (a - from)
      {
        var mem;
        mem, m := AllocOne(pd, a, p0, b0, from, m);
        if mem.None? {
          ghost var p1, b1 := pages, book;
          Deallocuvm(pd, from, to);
          Undone(p0, p1, pages, first, b0, b1, book, pd, from, m, to);
          return false;
        }
        a := a + 1;
      }
      ok := true;
    }

    /** allocuvm, in bytes: a size in the kernel's half is refused, a smaller size is no change, and
        otherwise the process has all the pages of the new size, or those it had. */
    method Allocuvm(pd: nat, oldsz: nat, newsz: nat) returns (sz: nat)
      requires Valid() && pd in book.dirs
      requires newsz < KERNBASE ==> forall u :: RoundUp(oldsz) <= u < RoundUp(newsz) ==> !Walk(pages, pd, u).Present()
      modifies this
      ensures Valid() && book.dirs == old(book).dirs && Keeps(old(book), book) && DataSame(old(pages), pages, old(book))
      ensures OneLost(old(book).hand, book.hand)
      ensures newsz >= KERNBASE || newsz < oldsz ==>
        sz == (if newsz >= KERNBASE then 0 else oldsz) && pages == old(pages) && free == old(free) && book == old(book)
      ensures newsz < KERNBASE && oldsz <= newsz ==> sz == newsz || sz == 0
      ensures sz == 0 && newsz > 0 && oldsz <= newsz ==> MapsAlike(old(pages), pages, book.dirs) && OnlyTables(old(book), book, pd)
      ensures sz == newsz && oldsz <= newsz && book.hand == old(book).hand ==>
        Grown(old(pages), pages, book.dirs, old(book).owner, pd, RoundUp(oldsz), RoundUp(newsz))
      ensures sz == newsz && oldsz <= newsz && book.hand != old(book).hand ==>
        RoundUp(newsz) > 0 && free == [] && Grown(old(pages), pages, book.dirs, old(book).owner, pd, RoundUp(oldsz), RoundUp(newsz) - 1)
      ensures newsz < KERNBASE && oldsz <= newsz && |old(free)| >= 2 * (RoundUp(newsz) - RoundUp(oldsz)) ==>
        sz == newsz && book.hand == old(book).hand
    {
      if newsz >= KERNBASE {
        return 0;
      }
      if newsz < oldsz {
        return oldsz;
      }
      var ok := AllocPages(pd, RoundUp(oldsz), RoundUp(newsz));
      sz := if ok then newsz else 0;
    }

    /** A zeroed page directory. */
    method NewSpace() returns (r: Option<nat>)
      requires Valid()
      modifies this
      ensures r.Some? ==> Valid() && r.value !in old(book).dirs && Beside(old(pages), old(book), pages, book, r.value)
      ensures r.Some? ==> forall u :: 0 <= u < NPAGES ==> Walk(pages, r.value, u) == NOENTRY
      ensures (r.None? <==> old(free) == []) && (r.Some? ==> |old(free)| == |free| + 1)
      ensures r.None? ==> Valid() && free == old(free) && pages == old(pages) && book == old(book)
    {
      r := Kalloc();
      if r.Some? {
        var pd := r.value;
        NewDir(pages, pages[pd := ZeroTable()], first, book.dirs, book.owner, pd);
        PlaceAccounts(free, |pages|, first, book, pd, Top(pd));
        pages := pages[pd := ZeroTable()];
        book := Placed(book, pd, Top(pd)).(dirs := book.dirs + {pd});
        assert book.hand == old(book).hand;
      }
    }

    /** One line of kmap, the k lines before it having been mapped since the state was p0 and b0. */
    method MapLine(pd: nat, kmap: seq<Kmap>, k: nat, ghost p0: seq<Frame>, ghost b0: Book) returns (r: Mapping)
      requires Valid() && pd !in b0.dirs && Beside(p0, b0, pages, book, pd) && k < |kmap| && KernelRange(kmap[k])
      requires forall u :: 0 <= u < NPAGES ==> Walk(pages, pd, u) == KernelEntry(kmap[..k], u)
      modifies this
      ensures Valid() && (!r.Remap? ==> Beside(p0, b0, pages, book, pd)) && (r.Remap? ==> Overlap(kmap))
      ensures r.Done? ==> forall u :: 0 <= u < NPAGES ==> Walk(pages, pd, u) == KernelEntry(kmap[..k + 1], u)
      ensures r.Done? ==> |old(free)| <= |free| + kmap[k].n
      ensures r.NoMemory? ==> free == [] && |old(free)| < kmap[k].n
    {
      ghost var p1, b1 := pages, book;
      ghost var done;
      r, done := Mappages(pd, kmap[k].v, kmap[k].n, kmap[k].frame, kmap[k].perm);
      if r.Remap? {
        ghost var u :| kmap[k].v <= u < kmap[k].v + kmap[k].n && Walk(p1, pd, u).Present();
        assert Clash(kmap, k, u);
      } else {
        assert UserFrames(kmap[k].v, done, kmap[k].frame) == {};
        BesideRange(p0, b0, p1, b1, pages, book, pd, kmap[k], done);
        assert kmap[..k + 1][..k] == kmap[..k];
      }
    }

    /** setupkvm: a new address space with the kernel's mappings and no user pages. When memory runs
        out the directory and the tables made so far are lost. */
    method Setupkvm(kmap: seq<Kmap>, phystop: nat) returns (r: Space)
      requires Valid() && forall k :: 0 <= k < |kmap| ==> KernelRange(kmap[k])
      modifies this
      ensures r.Made? ==> Valid() && r.pd !in old(book).dirs && Beside(old(pages), old(book), pages, book, r.pd)
      ensures r.Made? ==> forall u :: 0 <= u < NPAGES ==> Walk(pages, r.pd, u) == KernelEntry(kmap, u)
      ensures r.Made? ==> |old(free)| <= |free| + 1 + KernelPages(kmap)
      ensures r.Failed? ==> Valid() && free == [] && Abandoned(old(pages), old(book), pages, book)
      ensures r.Failed? ==> |old(free)| < 1 + KernelPages(kmap)
      ensures r.Panicked? ==> UPAGES + phystop > DEVPAGE || Overlap(kmap)
    {
      ghost var p0, b0 := pages, book;
      var s := NewSpace();
      if s.None? {
        return Failed;
      }
      var pd := s.value;
      if UPAGES + phystop > DEVPAGE {
        return Panicked;
      }
      var k := 0;
      while k < |kmap|
        invariant 0 <= k <= |kmap| && Valid() && Beside(p0, b0, pages, book, pd)
        invariant forall u :: 0 <= u < NPAGES ==> Walk(pages, pd, u) == KernelEntry(kmap[..k], u)
        invariant |old(free)| <= |free| + 1 + KernelPages(kmap[..k])
      {
        KernelPagesNext(kmap, k);
        var m := MapLine(pd, kmap, k, p0, b0);
        if m.Remap? {
          return Panicked;
        }
        if m.NoMemory? {
          return Failed;
        }
        k := k + 1;
      }
      assert kmap[..|kmap|] == kmap;
      r := Made(pd);
    }

    /** One page of copyuvm; a missing page of the parent is a panic. */
    method CopyPage(pd: nat, d: nat, i: nat) returns (missing: bool, r: Mapping)
      requires Valid() && pd in book.dirs && d in book.dirs && i < UPAGES && !Walk(pages, d, i).Present()
      modifies this
      ensures Valid() && !r.Remap? && (missing <==> !Walk(old(pages), pd, i).Present()) && (missing ==> !r.Done?)
      ensures r.Done? ==> book.dirs == old(book).dirs && book.hand == old(book).hand && Keeps(old(book), book) && Adds(old(book), book, d)
      ensures r.Done? ==> DataSame(old(pages), pages, old(book))
      ensures r.Done? ==> var w := Walk(old(pages), pd, i);
        && w.Present() && w.frame < |old(pages)| && old(pages)[w.frame].Data?
        && FreshPage(old(pages), pages, book.dirs, old(book).owner, d, i, old(pages)[w.frame].bytes, w.flags)
      ensures !missing && r.NoMemory? ==> free == [] && |old(free)| < 2 && Kept(old(pages), old(book), pages, book)
      ensures !missing && r.NoMemory? ==> OneLost(old(book).hand, book.hand)
      ensures r.Done? ==> |old(free)| <= |free| + 2
    {
      missing, r := false, NoMemory;
      if !HasTable(pages, pd, i) || !Walk(pages, pd, i).Present() {
        missing := true;
        return;
      }
      var w := Walk(pages, pd, i);
      assert SlotOk(pages, first, book.owner, Page(pd, i));
      var mem;
      mem, r := MapFresh(d, i, pages[w.frame].bytes, w.flags);
      if mem.Some? { assert mem.value !in old(book).hand; }
    }

    /** One round of copyuvm, i pages having been copied to d since the state was p0 and b0; with
        the way out when memory runs out. */
    method CopyNext(pd: nat, d: nat, i: nat, ghost p0: seq<Frame>, ghost b0: Book, ghost kmap: seq<Kmap>)
      returns (missing: bool, r: Mapping)
      requires Valid() && pd in b0.dirs && d !in b0.dirs && i < UPAGES && Places(p0, first, b0.dirs, b0.owner)
      requires Beside(p0, b0, pages, book, d) && Copied(p0, pages, b0.owner, pd, d, i, kmap) && KernelEntry(kmap, i) == NOENTRY
      modifies this
      ensures Valid() && !r.Remap? && (missing <==> !Walk(p0, pd, i).Present()) && (missing ==> !r.Done?)
      ensures r.Done? ==> Beside(p0, b0, pages, book, d) && Copied(p0, pages, b0.owner, pd, d, i + 1, kmap)
      ensures r.Done? ==> |old(free)| <= |free| + 2
      ensures !missing && !r.Done? ==> |old(free)| < 2 && Kept(p0, b0, pages, book) && OneLost(b0.hand, book.hand)
    {
      ghost var p1, b1, w := pages, book, Walk(pages, pd, i);
      assert CopiedAt(p0, pages, b0.owner, pd, d, i, kmap, i);
      assert Walk(p1, pd, i) == Walk(p0, pd, i);
      missing, r := CopyPage(pd, d, i);
      if missing {
        return;
      }
      if r.Done? {
        BesidePage(p0, b0, p1, b1, pages, book, d, i, p1[w.frame].bytes, w.flags);
        CopiedNext(p0, p1, pages, first, b0, b1, pd, d, i, kmap);
      } else {
        ghost var p2, b2 := pages, book;
        Freevm(d);
        GivenBack(p0, b0, p1, b1, p2, b2, pages, book, first, d);
      }
    }

    /** copyuvm's loop. */
    method CopyPages(pd: nat, d: nat, n: nat, kmap: seq<Kmap>, ghost p0: seq<Frame>, ghost b0: Book)
      returns (missing: bool, ok: bool)
      requires Valid() && pd in b0.dirs && d !in b0.dirs && n <= UPAGES && Places(p0, first, b0.dirs, b0.owner)
      requires Beside(p0, b0, pages, book, d) && Copied(p0, pages, b0.owner, pd, d, 0, kmap)
      requires forall k :: 0 <= k < |kmap| ==> KernelRange(kmap[k])
      modifies this
      ensures missing ==> !ok && exists i :: 0 <= i < n && !Walk(p0, pd, i).Present()
      ensures ok ==> Valid() && Beside(p0, b0, pages, book, d) && Copied(p0, pages, b0.owner, pd, d, n, kmap)
      ensures ok ==> |old(free)| <= |free| + 2 * n
      ensures !missing && !ok ==> Valid() && |old(free)| < 2 * n && Kept(p0, b0, pages, book) && OneLost(b0.hand, book.hand)
    {
      var i := 0;
      while i < n
        invariant 0 <= i <= n && Valid() && Beside(p0, b0, pages, book, d) && Copied(p0, pages, b0.owner, pd, d, i, kmap)
        invariant |old(free)| <= |free| + 2 * i
      {
        NoUserPages(kmap, i);
        var m;
        missing, m := CopyNext(pd, d, i, p0, b0, kmap);
        if !m.Done? {
          return missing, false;
        }
        i := i + 1;
      }
      return false, true;
    }

    /** copyuvm of the first n pages: the child's pages hold the same bytes with the same flags in
        frames of its own, and nothing of the parent or of others changes. When memory runs out
        every frame of the unfinished child is given back, but for one that no table could be found
        for. It panics only if a page of the parent is missing or setupkvm panics. */
    method Copyuvm(pd: nat, n: nat, kmap: seq<Kmap>, phystop: nat) returns (r: Space)
      requires Valid() && pd in book.dirs && n <= UPAGES && forall k :: 0 <= k < |kmap| ==> KernelRange(kmap[k])
      modifies this
      ensures r.Made? ==> Valid() && r.pd !in old(book).dirs && Beside(old(pages), old(book), pages, book, r.pd)
      ensures r.Made? ==> Copied(old(pages), pages, old(book).owner, pd, r.pd, n, kmap)
      ensures r.Failed? ==> Valid() && CopyUndone(old(pages), old(book), pages, book)
      ensures r.Failed? ==> |old(free)| < 1 + KernelPages(kmap) + 2 * n
      ensures r.Panicked? ==>
        UPAGES + phystop > DEVPAGE || Overlap(kmap) || exists i :: 0 <= i < n && !Walk(old(pages), pd, i).Present()
    {
      var s := Setupkvm(kmap, phystop);
      if !s.Made? {
        return s;
      }
      NoneCopied(old(pages), pages, old(book).owner, pd, s.pd, kmap);
      var missing, ok := CopyPages(pd, s.pd, n, kmap, old(pages), old(book));
      r := if ok then s else if missing then Panicked else Failed;
    }
  }

  const PGSIZE: nat := 4096
  const KERNBASE: nat := UPAGES * PGSIZE

  /** PGROUNDUP, as a page number. */
  function RoundUp(sz: nat): nat { (sz + PGSIZE - 1) / PGSIZE }

  /** A page directory, or none for want of memory. */
  datatype Space = Made(pd: nat) | Failed | Panicked

  const DEVPAGE: nat := 0xf_e000  // the page number of DEVSPACE

  /** Every frame that got a place got it in address space pd. */
  ghost predicate Adds(b: Book, c: Book, pd: nat) {
    forall f :: f in c.owner && f !in b.owner ==> c.owner[f].pd == pd
  }

  /** At most one frame has been taken from the free list and forgotten. */
  ghost predicate OneLost(h: set<nat>, k: set<nat>) {
    k == h || exists f :: f !in h && k == h + {f}
  }

  /** No place, no directory and no mapping has changed. */
  ghost predicate Kept(p: seq<Frame>, b: Book, q: seq<Frame>, c: Book) {
    c.dirs == b.dirs && c.owner == b.owner && MapsSame(p, q, b.dirs) && DataSame(p, q, b)
  }

  /** Nothing has changed, but for an unfinished address space that nobody knows of. */
  ghost predicate Abandoned(p: seq<Frame>, b: Book, q: seq<Frame>, c: Book) {
    (c == b && q == p) || exists d :: d !in b.dirs && Beside(p, b, q, c, d)
  }

  /** The unfinished copy is gone, but for at most one frame, or nothing but an unfinished address
      space was made. */
  ghost predicate CopyUndone(p: seq<Frame>, b: Book, q: seq<Frame>, c: Book) {
    Abandoned(p, b, q, c) || (Kept(p, b, q, c) && OneLost(b.hand, c.hand))
  }

  /** The same pages are mapped, to the same frames with the same flags. */
  ghost predicate MapsAlike(p: seq<Frame>, q: seq<Frame>, dirs: set<nat>) {
    forall d, u :: d in dirs && 0 <= u < NPAGES ==> MapAlike(p, q, d, u)
  }

  predicate MapAlike(p: seq<Frame>, q: seq<Frame>, d: nat, u: nat) {
    Walk(q, d, u) == Walk(p, d, u) || (!Walk(q, d, u).Present() && !Walk(p, d, u).Present())
  }

  /** What pd has got are tables. */
  ghost predicate OnlyTables(b: Book, c: Book, pd: nat) {
    forall f :: f in c.owner && f !in b.owner ==> c.owner[f].Tab? && c.owner[f].pd == pd
  }

  /** allocuvm has mapped the pages up to m and come to page a: nothing is lost yet, or the memory
      ran out at the page before. */
  ghost predicate Progress(h: set<nat>, k: set<nat>, free: seq<nat>, m: nat, a: nat) {
    if m == a then k == h else m + 1 == a && free == [] && k != h && OneLost(h, k)
  }

  lemma StillUnmapped(p0: seq<Frame>, p1: seq<Frame>, dirs: set<nat>, o: map<nat, Slot>, pd: nat, from: nat, m: nat, a: nat)
    requires Grown(p0, p1, dirs, o, pd, from, m) && pd in dirs && m <= a < NPAGES && !Walk(p0, pd, a).Present()
    ensures !Walk(p1, pd, a).Present()
  {
    assert GrownAt(p0, p1, o, pd, from, m, pd, a);
  }

  /** allocuvm, begun with p and b, has mapped the pages from `from` to m. */
  ghost predicate Growing(p: seq<Frame>, b: Book, q: seq<Frame>, c: Book, pd: nat, from: nat, m: nat) {
    && Grown(p, q, b.dirs, b.owner, pd, from, m) && DataSame(p, q, b)
    && c.dirs == b.dirs && Keeps(b, c) && Adds(b, c, pd) && b.hand <= c.hand
  }

  lemma GrowingNext(p0: seq<Frame>, b0: Book, p1: seq<Frame>, b1: Book, q: seq<Frame>, c: Book, first: nat, pd: nat, from: nat, a: nat)
    requires Growing(p0, b0, p1, b1, pd, from, a) && Places(p1, first, b1.dirs, b1.owner) && from <= a < UPAGES && pd in b1.dirs
    requires c.dirs == b1.dirs && c.hand == b1.hand && Keeps(b1, c) && Adds(b1, c, pd)
    requires DataSame(p1, q, b1) && FreshPage(p1, q, b1.dirs, b1.owner, pd, a, ZeroBytes(), PTE_W + PTE_U)
    ensures Growing(p0, b0, q, c, pd, from, a + 1)
  {
    GrownNext(p0, p1, q, first, b0, b1, pd, from, a);
  }

  lemma GrowingKept(p0: seq<Frame>, b0: Book, p1: seq<Frame>, b1: Book, q: seq<Frame>, c: Book, first: nat, pd: nat, from: nat, m: nat)
    requires Growing(p0, b0, p1, b1, pd, from, m) && Places(p1, first, b1.dirs, b1.owner) && from <= m <= UPAGES && pd in b1.dirs
    requires Kept(p1, b1, q, c) && b1.hand <= c.hand
    ensures Growing(p0, b0, q, c, pd, from, m)
  {
    forall d, u | d in b0.dirs && 0 <= u < NPAGES ensures GrownAt(p0, q, b0.owner, pd, from, m, d, u) {
      assert GrownAt(p0, p1, b0.owner, pd, from, m, d, u) && Walk(q, d, u) == Walk(p1, d, u);
      if d == pd && from <= u < m { assert SlotOk(p1, first, b1.owner, Page(pd, u)); }
    }
  }

  /** Address space d has been added, and the others and the frames in hand are as before. */
  ghost predicate Beside(p: seq<Frame>, b: Book, q: seq<Frame>, c: Book, d: nat) {
    c.dirs == b.dirs + {d} && c.hand == b.hand && Keeps(b, c) && Adds(b, c, d) && MapsSame(p, q, b.dirs) && DataSame(p, q, b)
  }

  lemma BesidePage(p0: seq<Frame>, b0: Book, p1: seq<Frame>, b1: Book, q: seq<Frame>, c: Book, d: nat, v: nat, bytes: seq<int>, perm: nat)
    requires Beside(p0, b0, p1, b1, d) && d !in b0.dirs && c.dirs == b1.dirs && c.hand == b1.hand && Keeps(b1, c) && Adds(b1, c, d)
    requires DataSame(p1, q, b1) && FreshPage(p1, q, b1.dirs, b1.owner, d, v, bytes, perm)
    ensures Beside(p0, b0, q, c, d)
  {
    forall e, u | e in b0.dirs && 0 <= u < NPAGES ensures Walk(q, e, u) == Walk(p0, e, u) {
      assert MapBut(p1, q, d, v, MakePte(Walk(q, d, v).frame, perm), e, u) && Walk(p1, e, u) == Walk(p0, e, u);
    }
  }

  lemma BesideRange(p0: seq<Frame>, b0: Book, p1: seq<Frame>, b1: Book, q: seq<Frame>, c: Book, d: nat, k: Kmap, n: nat)
    requires Beside(p0, b0, p1, b1, d) && d !in b0.dirs && c.dirs == b1.dirs && c.hand == b1.hand && Keeps(b1, c) && Adds(b1, c, d)
    requires DataSame(p1, q, b1) && MapsRange(p1, q, b1.dirs, d, k.v, n, k.frame, k.perm)
    ensures Beside(p0, b0, q, c, d)
  {
    forall e, u | e in b0.dirs && 0 <= u < NPAGES ensures Walk(q, e, u) == Walk(p0, e, u) {
      assert Walk(p1, e, u) == Walk(p0, e, u);
    }
  }

  predicate KernelRange(k: Kmap) { k.n > 0 && UPAGES <= k.v && k.v + k.n <= NPAGES }

  /** The kernel's mapping of page u. */
  function KernelEntry(kmap: seq<Kmap>, u: nat): Pte {
    if kmap == [] then NOENTRY
    else
      var k := kmap[|kmap| - 1];
      if k.v <= u < k.v + k.n then MakePte(k.frame + u - k.v, k.perm) else KernelEntry(kmap[..|kmap| - 1], u)
  }

  lemma {:induction false} NoUserPages(kmap: seq<Kmap>, u: nat)
    requires u < UPAGES && forall k :: 0 <= k < |kmap| ==> KernelRange(kmap[k])
    ensures KernelEntry(kmap, u) == NOENTRY
  {
    if kmap != [] { NoUserPages(kmap[..|kmap| - 1], u); }
  }

  lemma NoneCopied(p: seq<Frame>, q: seq<Frame>, o: map<nat, Slot>, pd: nat, d: nat, kmap: seq<Kmap>)
    requires |q| == |p| && forall u :: 0 <= u < NPAGES ==> Walk(q, d, u) == KernelEntry(kmap, u)
    ensures Copied(p, q, o, pd, d, 0, kmap)
  {
  }

  /** The first n pages of d are copies of those of pd, in frames that belonged to no place before;
      its other pages are the kernel's. */
  ghost predicate Copied(p: seq<Frame>, q: seq<Frame>, o: map<nat, Slot>, pd: nat, d: nat, n: nat, kmap: seq<Kmap>) {
    |q| == |p| && forall u :: 0 <= u < NPAGES ==> CopiedAt(p, q, o, pd, d, n, kmap, u)
  }

  predicate CopiedAt(p: seq<Frame>, q: seq<Frame>, o: map<nat, Slot>, pd: nat, d: nat, n: nat, kmap: seq<Kmap>, u: nat) {
    if u < n then
      var v, w := Walk(p, pd, u), Walk(q, d, u);
      && v.Present() && w.flags == v.flags && w.frame !in o && v.frame < |p| && w.frame < |q|
      && p[v.frame].Data? && q[w.frame] == p[v.frame]
    else Walk(q, d, u) == KernelEntry(kmap, u)
  }

  /** The directory's own entries are unchanged. */
  predicate TablesSame(p: seq<Frame>, q: seq<Frame>, pd: nat) {
    pd < |p| && pd < |q| && q[pd] == p[pd]
  }

  /** deallocuvm has reached page a by whole-table strides from an unaligned start. */
  predicate Strided(p: seq<Frame>, pd: nat, from: nat, a: nat) {
    a % NPT == from % NPT && forall r :: from / NPT <= r < a / NPT ==> !Entry(p, pd, r).Present()
  }

  /** deallocuvm is at page a: either it has only made strides so far, or it has walked through a
      table and from now on meets every table at its first page. */
  ghost predicate OnTrack(p: seq<Frame>, pd: nat, from: nat, a: nat) {
    Strided(p, pd, from, a) || ((a % NPT == 0 || HasTable(p, pd, a)) && forall u :: u >= a ==> !Missed(p, pd, from, u))
  }

  lemma StaysOnTrack(p: seq<Frame>, pd: nat, from: nat, a: nat, next: nat)
    requires from <= a && OnTrack(p, pd, from, a) && next == if HasTable(p, pd, a) then a + 1 else a + NPT
    ensures OnTrack(p, pd, from, next)
  {
    if HasTable(p, pd, a) {
      if next % NPT != 0 { assert next / NPT == a / NPT; }
      forall u | u >= next ensures !Missed(p, pd, from, u) {
        if Strided(p, pd, from, a) && u / NPT == a / NPT { assert u % NPT > a % NPT; }
      }
    } else if Strided(p, pd, from, a) {
      assert next / NPT == a / NPT + 1 && next % NPT == a % NPT;
    }
  }

  /** The mapped pages of pd in the range are unmapped, except those stepped over. */
  ghost predicate Freed(p: seq<Frame>, q: seq<Frame>, dirs: set<nat>, pd: nat, from: nat, to: nat) {
    forall d, u :: d in dirs && 0 <= u < NPAGES ==> FreedAt(p, q, pd, from, to, d, u)
  }

  predicate Goes(p: seq<Frame>, pd: nat, from: nat, to: nat, u: nat) {
    from <= u < to && Walk(p, pd, u).Present() && !Missed(p, pd, from, u)
  }

  predicate FreedAt(p: seq<Frame>, q: seq<Frame>, pd: nat, from: nat, to: nat, d: nat, u: nat) {
    Walk(q, d, u) == if d == pd && Goes(p, pd, from, to, u) then NOENTRY else Walk(p, d, u)
  }

  /** Exactly the frames of those pages have been given up. */
  ghost predicate Trimmed(o: map<nat, Slot>, q: map<nat, Slot>, p: seq<Frame>, pd: nat, from: nat, to: nat) {
    forall f :: (f in q <==> f in o && !(o[f].Page? && o[f].pd == pd && Goes(p, pd, from, to, o[f].v))) && (f in q ==> q[f] == o[f])
  }

  datatype Mapping = Done | NoMemory | Remap

  /** No frame changes hands, though more may be placed. */
  ghost predicate Keeps(b: Book, c: Book) {
    forall f :: f in b.owner ==> f in c.owner && c.owner[f] == b.owner[f]
  }

  /** The pages of the kernel's own mappings, and so the most tables they can need. */
  function KernelPages(kmap: seq<Kmap>): nat {
    if kmap == [] then 0 else KernelPages(kmap[..|kmap| - 1]) + kmap[|kmap| - 1].n
  }

  lemma {:induction false} KernelPagesNext(kmap: seq<Kmap>, k: nat)
    requires k < |kmap|
    ensures KernelPages(kmap[..k]) + kmap[k].n == KernelPages(kmap[..k + 1]) <= KernelPages(kmap)
    decreases |kmap| - k
  {
    assert kmap[..k + 1][..k] == kmap[..k];
    if k + 1 < |kmap| { KernelPagesNext(kmap, k + 1); } else { assert kmap[..k + 1] == kmap; }
  }

  /** Page u of the k-th range is in an earlier range too. */
  predicate Clash(kmap: seq<Kmap>, k: nat, u: nat) {
    k < |kmap| && kmap[k].v <= u < kmap[k].v + kmap[k].n && KernelEntry(kmap[..k], u).Present()
  }

  ghost predicate Overlap(kmap: seq<Kmap>) { exists k, u :: Clash(kmap, k, u) }

  /** The frames among the n from f on that go to user pages, when the first goes to page v. */
  ghost function UserFrames(v: nat, n: nat, f: nat): (r: set<nat>)
    ensures forall j :: j in r <==> f <= j < f + n && v + j - f < UPAGES
  {
    if n == 0 then {} else UserFrames(v, n - 1, f) + if v + n - 1 < UPAGES then {f + n - 1} else {}
  }

  /** The hand has become smaller by frames that were given places, and no frame has lost its place. */
  ghost predicate Handed(b: Book, c: Book, out: set<nat>) {
    c.dirs == b.dirs && c.hand == b.hand - out && Keeps(b, c) && forall j :: j in out ==> j in c.owner
  }

  lemma HandedNext(p0: seq<Frame>, p1: seq<Frame>, q: seq<Frame>, b0: Book, b1: Book, c: Book, v: nat, k: nat, f: nat)
    requires Handed(b0, b1, UserFrames(v, k, f)) && DataSame(p0, p1, b0) && DataSame(p1, q, b1) && Keeps(b1, c) && c.dirs == b1.dirs
    requires c.hand == if v + k < UPAGES then b1.hand - {f + k} else b1.hand
    requires v + k < UPAGES ==> f + k in c.owner
    ensures Handed(b0, c, UserFrames(v, k + 1, f)) && DataSame(p0, q, b0)
  {
    forall g | 0 <= g < |p0| && p0[g].Data? && (g in b0.owner || g in b0.hand) ensures q[g] == p0[g] {
      assert g in b1.owner || g in b1.hand;
    }
  }

  /** pd maps n pages from v on to the n frames from f on, and nothing else has changed. */
  ghost predicate MapsRange(p: seq<Frame>, q: seq<Frame>, dirs: set<nat>, pd: nat, v: nat, n: nat, f: nat, perm: nat) {
    forall d, u :: d in dirs && 0 <= u < NPAGES ==>
      Walk(q, d, u) == if d == pd && v <= u < v + n then MakePte(f + u - v, perm) else Walk(p, d, u)
  }

  /** mappages has mapped n pages from v on: the frames of user pages have left the hand, and
      nothing else has changed. */
  ghost predicate RangeMapped(p: seq<Frame>, b: Book, q: seq<Frame>, c: Book, pd: nat, v: nat, n: nat, f: nat, perm: nat) {
    Handed(b, c, UserFrames(v, n, f)) && Adds(b, c, pd) && MapsRange(p, q, b.dirs, pd, v, n, f, perm) && DataSame(p, q, b)
  }

  lemma RangeMappedNext(p0: seq<Frame>, p1: seq<Frame>, q: seq<Frame>, b0: Book, b1: Book, c: Book, pd: nat, v: nat, k: nat, f: nat, perm: nat)
    requires RangeMapped(p0, b0, p1, b1, pd, v, k, f, perm) && MapsBut(p1, q, b1.dirs, pd, v + k, MakePte(f + k, perm))
    requires DataSame(p1, q, b1) && Keeps(b1, c) && Adds(b1, c, pd) && c.dirs == b1.dirs
    requires c.hand == if v + k < UPAGES then b1.hand - {f + k} else b1.hand
    requires v + k < UPAGES ==> f + k in c.owner
    ensures RangeMapped(p0, b0, q, c, pd, v, k + 1, f, perm)
  {
    RangeNext(p0, p1, q, b0.dirs, pd, v, k, f, perm);
    HandedNext(p0, p1, q, b0, b1, c, v, k, f);
  }

  lemma MapsSameBut(p: seq<Frame>, q: seq<Frame>, r: seq<Frame>, dirs: set<nat>, pd: nat, v: nat, w: Pte)
    requires MapsSame(p, q, dirs) && MapsBut(q, r, dirs, pd, v, w)
    ensures MapsBut(p, r, dirs, pd, v, w)
  {
    forall d, u | d in dirs && 0 <= u < NPAGES ensures MapBut(p, r, pd, v, w, d, u) {
      assert MapBut(q, r, pd, v, w, d, u) && Walk(q, d, u) == Walk(p, d, u);
    }
  }

  lemma RangeNext(p: seq<Frame>, q: seq<Frame>, r: seq<Frame>, dirs: set<nat>, pd: nat, v: nat, k: nat, f: nat, perm: nat)
    requires MapsRange(p, q, dirs, pd, v, k, f, perm) && MapsBut(q, r, dirs, pd, v + k, MakePte(f + k, perm))
    ensures MapsRange(p, r, dirs, pd, v, k + 1, f, perm)
  {
    forall d, u | d in dirs && 0 <= u < NPAGES
      ensures Walk(r, d, u) == if d == pd && v <= u < v + k + 1 then MakePte(f + u - v, perm) else Walk(p, d, u)
    {
      assert MapBut(q, r, pd, v + k, MakePte(f + k, perm), d, u);
    }
  }

  /** A frame goes from the hand into a place. */
  ghost function Placed(b: Book, f: nat, s: Slot): Book {
    b.(owner := b.owner[f := s], hand := b.hand - {f})
  }

  lemma PlaceAccounts(free: seq<nat>, n: nat, first: nat, b: Book, f: nat, s: Slot)
    requires Accounts(free, n, first, b.owner, b.hand) && f in b.hand
    ensures Accounts(free, n, first, Placed(b, f, s).owner, Placed(b, f, s).hand)
  {
  }

  lemma TakeAccounts(free: seq<nat>, n: nat, first: nat, b: Book, f: nat)
    requires Accounts(free, n, first, b.owner, b.hand) && f in b.owner && Managed(n, first, f)
    ensures Accounts(free, n, first, b.owner - {f}, b.hand + {f}) && f !in b.hand
  {
  }

  lemma MapsButSame(p: seq<Frame>, q: seq<Frame>, r: seq<Frame>, dirs: set<nat>, pd: nat, v: nat, w: Pte)
    requires MapsBut(p, q, dirs, pd, v, w) && MapsSame(q, r, dirs)
    ensures MapsBut(p, r, dirs, pd, v, w)
  {
    forall d, u | d in dirs && 0 <= u < NPAGES ensures MapBut(p, r, pd, v, w, d, u) {
      assert MapBut(p, q, pd, v, w, d, u) && Walk(r, d, u) == Walk(q, d, u);
    }
  }

  /** Where there is no table, the pages up to the next stop are unmapped or stepped over. */
  lemma StepsOver(p: seq<Frame>, pd: nat, from: nat, a: nat, u: nat)
    requires from <= a && OnTrack(p, pd, from, a) && !HasTable(p, pd, a)
    requires a <= u < a + NPT && Walk(p, pd, u).Present()
    ensures Missed(p, pd, from, u)
  {
    assert u / NPT != a / NPT;
    assert u / NPT == a / NPT + 1 && u % NPT < a % NPT;
  }

  lemma FreedNext(p0: seq<Frame>, p1: seq<Frame>, q: seq<Frame>, dirs: set<nat>, pd: nat, from: nat, to: nat, a: nat, next: nat)
    requires Freed(p0, p1, dirs, pd, from, a) && TablesSame(p0, p1, pd) && from <= a < to <= UPAGES && pd in dirs
    requires OnTrack(p0, pd, from, a) && next == if HasTable(p0, pd, a) then a + 1 else a + NPT
    requires if HasTable(p0, pd, a) && Walk(p1, pd, a).Present() then MapsBut(p1, q, dirs, pd, a, NOENTRY) else q == p1
    ensures Freed(p0, q, dirs, pd, from, if next < to then next else to)
  {
    var end := if next < to then next else to;
    assert FreedAt(p0, p1, pd, from, a, pd, a);
    forall d, u | d in dirs && 0 <= u < NPAGES ensures FreedAt(p0, q, pd, from, end, d, u) {
      assert FreedAt(p0, p1, pd, from, a, d, u);
      if HasTable(p0, pd, a) && Walk(p1, pd, a).Present() { assert MapBut(p1, q, pd, a, NOENTRY, d, u); }
      if !HasTable(p0, pd, a) && a <= u < end && Walk(p0, pd, u).Present() { StepsOver(p0, pd, from, a, u); }
    }
  }

  lemma TrimmedNext(o: map<nat, Slot>, o1: map<nat, Slot>, q: map<nat, Slot>, p0: seq<Frame>, p1: seq<Frame>, first: nat,
                    dirs: set<nat>, pd: nat, from: nat, to: nat, a: nat, next: nat)
    requires Trimmed(o, o1, p0, pd, from, a) && Freed(p0, p1, dirs, pd, from, a) && Places(p1, first, dirs, o1)
    requires TablesSame(p0, p1, pd) && from <= a < to <= UPAGES && pd in dirs
    requires OnTrack(p0, pd, from, a) && next == if HasTable(p0, pd, a) then a + 1 else a + NPT
    requires if HasTable(p0, pd, a) && Walk(p1, pd, a).Present()
             then q == o1 - {Walk(p1, pd, a).frame} && Walk(p1, pd, a).frame in o1 && o1[Walk(p1, pd, a).frame] == Page(pd, a)
             else q == o1
    ensures Trimmed(o, q, p0, pd, from, if next < to then next else to)
  {
    var end := if next < to then next else to;
    assert FreedAt(p0, p1, pd, from, a, pd, a);
    forall f | f in o1 && o1[f].Page? && o1[f].pd == pd && a <= o1[f].v < end && Goes(p0, pd, from, end, o1[f].v)
      ensures f !in q
    {
      assert FrameOk(p1, first, dirs, o1, f);
      if !HasTable(p0, pd, a) { StepsOver(p0, pd, from, a, o1[f].v); }
    }
  }

  // ---------------------------------------------------------------- freevm

  /** Starting at page 0 nothing is stepped over. */
  lemma AllFreed(p: seq<Frame>, q: seq<Frame>, dirs: set<nat>, o: map<nat, Slot>, o1: map<nat, Slot>, first: nat, pd: nat)
    requires Places(p, first, dirs, o) && Places(q, first, dirs, o1) && pd in dirs
    requires Freed(p, q, dirs, pd, 0, UPAGES) && Trimmed(o, o1, p, pd, 0, UPAGES)
    ensures forall f :: f in o1 && o1[f].pd == pd ==> !o1[f].Page?
    ensures o1 - FramesOf(o1, pd) == o - FramesOf(o, pd) && MapsSame(p, q, dirs - {pd})
  {
    forall f | f in o && o[f].Page? && o[f].pd == pd ensures f !in o1 {
      assert FrameOk(p, first, dirs, o, f);
    }
    forall d, u | d in dirs - {pd} && 0 <= u < NPAGES ensures Walk(q, d, u) == Walk(p, d, u) {
      assert FreedAt(p, q, pd, 0, UPAGES, d, u);
    }
  }

  /** The directory and the tables from the i-th on. */
  ghost function Left(o: map<nat, Slot>, pd: nat, i: nat): set<nat> {
    set f | f in o && o[f].pd == pd && !(o[f].Tab? && o[f].i < i)
  }

  lemma LeftNext(p: seq<Frame>, first: nat, dirs: set<nat>, o: map<nat, Slot>, hand: set<nat>, free: seq<nat>, pd: nat, i: nat)
    requires Places(p, first, dirs, o) && pd in dirs && i < NPT && forall f :: f in hand ==> f !in o
    ensures pd < |p| && IsTable(p[pd])
    ensures var w := p[pd].e[i];
      if w.Present() then
        && w.frame in Left(o, pd, i) && hand + Left(o, pd, i + 1) == hand + Left(o, pd, i) - {w.frame}
        && w.frame < |p| && IsTable(p[w.frame])
      else Left(o, pd, i + 1) == Left(o, pd, i)
  {
    DirIsTable(p, first, dirs, o, pd);
    var w := Entry(p, pd, i);
    if w.Present() { TabIsTable(p, first, dirs, o, pd, i); }
    forall f | f in o && o[f] == Tab(pd, i) ensures w.Present() && f == w.frame {
      assert FrameOk(p, first, dirs, o, f);
    }
  }

  lemma LeftLast(p: seq<Frame>, first: nat, dirs: set<nat>, o: map<nat, Slot>, hand: set<nat>, pd: nat)
    requires Places(p, first, dirs, o) && pd in dirs && (forall f :: f in o && o[f].pd == pd ==> !o[f].Page?) && pd !in hand
    ensures pd in hand + Left(o, pd, NPT) && hand + Left(o, pd, NPT) - {pd} == hand
  {
    DirIsTable(p, first, dirs, o, pd);
    forall f | f in Left(o, pd, NPT) ensures f == pd {
      assert FrameOk(p, first, dirs, o, f);
    }
  }

  /** Page v of pd is now mapped, with the permissions and contents given, to a frame that belonged
      to no place before; no other mapping has changed. */
  ghost predicate FreshPage(p: seq<Frame>, q: seq<Frame>, dirs: set<nat>, o: map<nat, Slot>, pd: nat, v: nat, bytes: seq<int>, perm: nat) {
    var f := Walk(q, pd, v).frame;
    f !in o && f < |q| && q[f] == Data(bytes) && MapsBut(p, q, dirs, pd, v, MakePte(f, perm))
  }

  function ZeroBytes(): seq<int> { seq(4096, _ => 0) }

  /** The pages of pd from `from` to `to` are mapped, writable by the user, to zeroed frames that
      belonged to no place before; no other mapping has changed. */
  ghost predicate Grown(p: seq<Frame>, q: seq<Frame>, dirs: set<nat>, o: map<nat, Slot>, pd: nat, from: nat, to: nat) {
    |q| == |p| && forall d, u :: d in dirs && 0 <= u < NPAGES ==> GrownAt(p, q, o, pd, from, to, d, u)
  }

  predicate GrownAt(p: seq<Frame>, q: seq<Frame>, o: map<nat, Slot>, pd: nat, from: nat, to: nat, d: nat, u: nat) {
    if d == pd && from <= u < to then
      var w := Walk(q, d, u);
      w == MakePte(w.frame, PTE_W + PTE_U) && w.frame !in o && w.frame < |q| && q[w.frame] == Data(ZeroBytes())
    else Walk(q, d, u) == Walk(p, d, u)
  }

  lemma GrownNext(p0: seq<Frame>, p1: seq<Frame>, q: seq<Frame>, first: nat, b0: Book, b1: Book, pd: nat, from: nat, a: nat)
    requires Grown(p0, p1, b0.dirs, b0.owner, pd, from, a) && Keeps(b0, b1) && b1.dirs == b0.dirs && pd in b0.dirs
    requires FreshPage(p1, q, b0.dirs, b1.owner, pd, a, ZeroBytes(), PTE_W + PTE_U) && DataSame(p1, q, b1)
    requires Places(p1, first, b1.dirs, b1.owner) && from <= a < UPAGES
    ensures Grown(p0, q, b0.dirs, b0.owner, pd, from, a + 1)
  {
    var next := a + 1;
    forall d, u | d in b0.dirs && 0 <= u < NPAGES ensures GrownAt(p0, q, b0.owner, pd, from, next, d, u) {
      assert GrownAt(p0, p1, b0.owner, pd, from, a, d, u);
      assert MapBut(p1, q, pd, a, MakePte(Walk(q, pd, a).frame, PTE_W + PTE_U), d, u);
      if d == pd && from <= u < a { assert SlotOk(p1, first, b1.owner, Page(pd, u)); }
    }
  }

  lemma CopiedNext(p0: seq<Frame>, p1: seq<Frame>, q: seq<Frame>, first: nat, b0: Book, b1: Book, pd: nat, d: nat, i: nat, kmap: seq<Kmap>)
    requires Copied(p0, p1, b0.owner, pd, d, i, kmap) && Keeps(b0, b1) && MapsSame(p0, p1, b0.dirs) && DataSame(p0, p1, b0)
    requires Places(p0, first, b0.dirs, b0.owner) && Places(p1, first, b1.dirs, b1.owner) && DataSame(p1, q, b1)
    requires pd in b0.dirs && d in b1.dirs && i < UPAGES && Walk(p1, pd, i).Present()
    requires Walk(p1, pd, i).frame < |p1| && p1[Walk(p1, pd, i).frame].Data?
    requires FreshPage(p1, q, b1.dirs, b1.owner, d, i, p1[Walk(p1, pd, i).frame].bytes, Walk(p1, pd, i).flags)
    ensures Copied(p0, q, b0.owner, pd, d, i + 1, kmap)
  {
    var next, w := i + 1, Walk(p1, pd, i);
    assert Walk(p1, pd, i) == Walk(p0, pd, i);
    assert SlotOk(p0, first, b0.owner, Page(pd, i));
    forall u | 0 <= u < NPAGES ensures CopiedAt(p0, q, b0.owner, pd, d, next, kmap, u) {
      assert CopiedAt(p0, p1, b0.owner, pd, d, i, kmap, u);
      assert MapBut(p1, q, d, i, MakePte(Walk(q, d, i).frame, w.flags), d, u);
      if u < i { assert SlotOk(p1, first, b1.owner, Page(d, u)); }
    }
  }

  /** deallocuvm after a failed allocuvm: the pages are as before, and only tables have been added. */
  lemma Undone(p0: seq<Frame>, p1: seq<Frame>, q: seq<Frame>, first: nat, b0: Book, b1: Book, c: Book, pd: nat, from: nat, m: nat, to: nat)
    requires Places(p0, first, b0.dirs, b0.owner) && Places(q, first, c.dirs, c.owner) && b0.dirs == b1.dirs == c.dirs && pd in b0.dirs
    requires from <= m <= to <= UPAGES && forall u :: from <= u < to ==> !Walk(p0, pd, u).Present()
    requires Grown(p0, p1, b0.dirs, b0.owner, pd, from, m) && Keeps(b0, b1) && Adds(b0, b1, pd) && b0.hand <= b1.hand == c.hand
    requires Freed(p1, q, b0.dirs, pd, from, to) && Trimmed(b1.owner, c.owner, p1, pd, from, to)
    requires DataSame(p0, p1, b0) && DataSame(p1, q, c)
    ensures MapsAlike(p0, q, c.dirs) && Keeps(b0, c) && OnlyTables(b0, c, pd) && DataSame(p0, q, b0)
  {
    forall d, u | d in b0.dirs && 0 <= u < NPAGES ensures MapAlike(p0, q, d, u) {
      assert GrownAt(p0, p1, b0.owner, pd, from, m, d, u) && FreedAt(p1, q, pd, from, to, d, u);
      if d == pd && from <= u < m { NothingMissed(p0, p1, b0, pd, from, m, u); }
    }
    forall f | f in b0.owner ensures f in c.owner && c.owner[f] == b0.owner[f] {
      assert FrameOk(p0, first, b0.dirs, b0.owner, f);
    }
    forall f | f in c.owner && f !in b0.owner ensures c.owner[f].Tab? && c.owner[f].pd == pd {
      AddedIsTable(p0, q, first, b0, c, pd, f);
    }
  }

  lemma NothingMissed(p0: seq<Frame>, p1: seq<Frame>, b0: Book, pd: nat, from: nat, m: nat, u: nat)
    requires Grown(p0, p1, b0.dirs, b0.owner, pd, from, m) && pd in b0.dirs && from <= u < m <= UPAGES
    ensures Walk(p1, pd, u).Present() && !Missed(p1, pd, from, u)
  {
    assert GrownAt(p0, p1, b0.owner, pd, from, m, pd, u) && GrownAt(p0, p1, b0.owner, pd, from, m, pd, from);
    assert HasTable(p1, pd, from);
  }

  /** A frame that is mapped now was mapped, at the same page, before. */
  lemma MappedBefore(p: seq<Frame>, q: seq<Frame>, first: nat, b: Book, d: nat, v: nat, f: nat)
    requires Places(p, first, b.dirs, b.owner) && MapsAlike(p, q, b.dirs) && d in b.dirs && v < UPAGES
    requires Held(q, Page(d, v)) == Some(f)
    ensures f in b.owner
  {
    assert MapAlike(p, q, d, v) && SlotOk(p, first, b.owner, Page(d, v));
  }

  lemma AddedIsTable(p: seq<Frame>, q: seq<Frame>, first: nat, b: Book, c: Book, pd: nat, f: nat)
    requires Places(p, first, b.dirs, b.owner) && Places(q, first, c.dirs, c.owner) && b.dirs == c.dirs && pd in b.dirs
    requires MapsAlike(p, q, b.dirs) && f in c.owner && f !in b.owner && c.owner[f].pd == pd
    ensures c.owner[f].Tab?
  {
    assert FrameOk(q, first, c.dirs, c.owner, f);
    DirIsTable(p, first, b.dirs, b.owner, pd);
    if c.owner[f].Page? { MappedBefore(p, q, first, b, pd, c.owner[f].v, f); }
  }

  /** freevm after a failed copyuvm: every place is as before. */
  lemma GivenBack(p0: seq<Frame>, b0: Book, p1: seq<Frame>, b1: Book, p2: seq<Frame>, b2: Book, q: seq<Frame>, c: Book, first: nat, d: nat)
    requires Places(p0, first, b0.dirs, b0.owner) && d !in b0.dirs && Beside(p0, b0, p1, b1, d) && Kept(p1, b1, p2, b2)
    requires c == Book(b2.dirs - {d}, b2.owner - FramesOf(b2.owner, d), b2.hand) && MapsSame(p2, q, c.dirs) && DataSame(p2, q, c)
    requires b0.hand <= b2.hand
    ensures Kept(p0, b0, q, c)
  {
    forall f | f in b0.owner ensures b0.owner[f].pd != d { assert FrameOk(p0, first, b0.dirs, b0.owner, f); }
    assert c.owner == b0.owner;
    forall e, u | e in b0.dirs && 0 <= u < NPAGES ensures Walk(q, e, u) == Walk(p0, e, u) {
      assert Walk(p1, e, u) == Walk(p0, e, u) && Walk(p2, e, u) == Walk(p1, e, u);
    }
  }

  // ---------------------------------------------------------------- the kernel's own mappings

  /** kmap[], with the kernel's data starting at frame `data` and memory ending at frame `phystop`. */
  function KernelMap(data: nat, phystop: nat): seq<Kmap>
    requires EXTFRAME <= data <= phystop
  {
    [Kmap(UPAGES, EXTFRAME, 0, PTE_W), Kmap(UPAGES + EXTFRAME, data - EXTFRAME, EXTFRAME, 0),
     Kmap(UPAGES + data, phystop - data, data, PTE_W), Kmap(DEVPAGE, NPAGES - DEVPAGE, DEVPAGE, PTE_W)]
  }

  const EXTFRAME: nat := 0x100  // the frame number of EXTMEM

  /** setupkvm's check of PHYSTOP is exactly what keeps the kernel's ranges apart, so that mappages
      cannot panic there. */
  lemma KernelMapFits(data: nat, phystop: nat)
    requires EXTFRAME < data < phystop && UPAGES + phystop <= NPAGES
    ensures forall k :: 0 <= k < 4 ==> KernelRange(KernelMap(data, phystop)[k])
    ensures Overlap(KernelMap(data, phystop)) <==> UPAGES + phystop > DEVPAGE
  {
    var m := KernelMap(data, phystop);
    forall k, u | Clash(m, k, u) ensures UPAGES + phystop > DEVPAGE {
      RangesAbut(m, data, phystop, k, u);
    }
    RangesAbut(m, data, phystop, 3, DEVPAGE);
    if UPAGES + phystop > DEVPAGE { assert Clash(m, 3, DEVPAGE); }
  }

  /** The first three ranges follow on from one another. */
  lemma {:induction false} RangesAbut(m: seq<Kmap>, data: nat, phystop: nat, k: nat, u: nat)
    requires EXTFRAME < data < phystop && m == KernelMap(data, phystop) && k < 4
    ensures KernelEntry(m[..k], u).Present() <==> UPAGES <= u < if k < 3 then m[k].v else UPAGES + phystop
  {
    if k > 0 {
      assert m[..k][..k - 1] == m[..k - 1];
      RangesAbut(m, data, phystop, k - 1, u);
    }
  }

  // ---------------------------------------------------------------- deallocuvm's skip

  /** In the memory of Vm.SkipUnsound deallocuvm from page 1 on leaves page 1024 mapped. */
  method SkipMisses(k: Kernel)
    requires k.Valid() && k.pages == SkippedMemory() && 1 in k.book.dirs
    modifies k
    ensures k.Valid() && Walk(k.pages, 1, NPT) == Walk(old(k.pages), 1, NPT) && Walk(k.pages, 1, NPT).Present()
  {
    SkipUnsound();
    k.Deallocuvm(1, 1, NPT + 1);
    assert FreedAt(old(k.pages), k.pages, 1, 1, NPT + 1, 1, NPT);
  }

  ghost function From(p: nat, n: nat): set<nat>
    decreases n - p
  {
    if p >= n then {} else {p} + From(p + 1, n)
  }

  lemma {:induction false} FromIs(p: nat, n: nat, f: nat)
    ensures f in From(p, n) <==> p <= f < n
    decreases n - p
  {
    if p < n { FromIs(p + 1, n, f); }
  }
}
