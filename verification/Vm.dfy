/** Two-level page tables over a list of free page frames (vm.c, kalloc.c), with 32-bit paging as
    in section 4.3 of the Intel SDM, volume 3A. Addresses are counted in pages: a virtual page
    number has 10 bits of directory index and 10 bits of table index. */
module Vm {
  import opened Options

  const NPT: nat := 1024          // NPDENTRIES, NPTENTRIES
  const NPAGES: nat := 0x10_0000  // pages in the address space
  const UPAGES: nat := 0x8_0000   // pages below KERNBASE

  // ---------------------------------------------------------------- entries

  /** A directory or table entry: PTE_ADDR as a frame number, and PTE_FLAGS. */
  datatype Pte = Pte(frame: nat, flags: nat) {
    /** PTE_P, the lowest bit. */
    predicate Present() { flags % 2 == 1 }
  }

  const NOENTRY: Pte := Pte(0, 0)

  /** pa | perm | PTE_P for a page-aligned address. */
  function MakePte(f: nat, perm: nat): (w: Pte)
    ensures w.Present() && w.frame == f && perm <= w.flags <= perm + 1
  {
    Pte(f, if perm % 2 == 1 then perm else perm + 1)
  }

  // ---------------------------------------------------------------- memory

  /** What the kernel has last put into a page frame. */
  datatype Frame = Junk | Table(e: seq<Pte>) | Data(bytes: seq<int>)

  function Entry(pages: seq<Frame>, f: nat, i: nat): Pte {
    if f < |pages| && pages[f].Table? && i < |pages[f].e| then pages[f].e[i] else NOENTRY
  }

  /** The page-table entry for virtual page v, empty if there is no table for it. */
  function Walk(pages: seq<Frame>, pd: nat, v: nat): Pte {
    var w := Entry(pages, pd, v / NPT);
    if w.Present() then Entry(pages, w.frame, v % NPT) else NOENTRY
  }

  /** A place that can hold a page frame: a directory itself, one of its table pointers, or the
      mapping of one of its user pages. */
  datatype Slot = Top(pd: nat) | Tab(pd: nat, i: nat) | Page(pd: nat, v: nat)

  predicate InRange(s: Slot) {
    match s
    case Top(pd) => true
    case Tab(pd, i) => i < NPT
    case Page(pd, v) => v < UPAGES
  }

  function FrameIn(w: Pte): Option<nat> { if w.Present() then Some(w.frame) else None }

  /** The frame in a place, if any. */
  function Held(pages: seq<Frame>, s: Slot): Option<nat> {
    match s
    case Top(pd) => Some(pd)
    case Tab(pd, i) => FrameIn(Entry(pages, pd, i))
    case Page(pd, v) => FrameIn(Walk(pages, pd, v))
  }

  predicate IsTable(fr: Frame) { fr.Table? && |fr.e| == NPT }

  predicate FitsRole(fr: Frame, s: Slot) { if s.Page? then fr.Data? else IsTable(fr) }

  /** The n - first frames from `first` on are managed by kalloc and kfree. */
  predicate Managed(n: nat, first: nat, f: nat) { 0 < first <= f < n }

  /** A place is empty or holds a managed frame that belongs to it alone. */
  predicate SlotOk(pages: seq<Frame>, first: nat, owner: map<nat, Slot>, s: Slot) {
    Held(pages, s).Some? ==>
      var f := Held(pages, s).value; Managed(|pages|, first, f) && f in owner && owner[f] == s && FitsRole(pages[f], s)
  }

  predicate FrameOk(pages: seq<Frame>, first: nat, dirs: set<nat>, owner: map<nat, Slot>, f: nat)
    requires f in owner
  {
    Managed(|pages|, first, f) && owner[f].pd in dirs && InRange(owner[f]) && Held(pages, owner[f]) == Some(f)
  }

  /** `dirs` are the page directories in use: their places hold frames, one place each. */
  ghost predicate Places(pages: seq<Frame>, first: nat, dirs: set<nat>, owner: map<nat, Slot>) {
    && (forall s: Slot :: s.pd in dirs && InRange(s) ==> SlotOk(pages, first, owner, s))
    && (forall f :: f in owner ==> FrameOk(pages, first, dirs, owner, f))
  }

  /** `hand` are the frames taken from the free list and not yet put in a place. Every managed
      frame is in exactly one of: the free list (once), the hand, or a place. */
  ghost predicate Accounts(free: seq<nat>, n: nat, first: nat, owner: map<nat, Slot>, hand: set<nat>) {
    && (forall f :: f in hand ==> Managed(n, first, f) && f !in owner)
    && (forall f :: Count(free, f) == if Managed(n, first, f) && f !in owner && f !in hand then 1 else 0)
  }

  function Count(s: seq<nat>, f: nat): nat {
    if s == [] then 0 else Count(s[1..], f) + if s[0] == f then 1 else 0
  }

  // ---------------------------------------------------------------- kalloc and kfree

  /** kalloc: the frame at the head of the list goes into the hand. */
  lemma KallocAccounts(free: seq<nat>, n: nat, first: nat, owner: map<nat, Slot>, hand: set<nat>)
    requires Accounts(free, n, first, owner, hand) && free != []
    ensures Managed(n, first, free[0]) && free[0] !in owner && free[0] !in hand
    ensures Accounts(free[1..], n, first, owner, hand + {free[0]})
  {
    var rest, more := free[1..], hand + {free[0]};
    assert Count(free, free[0]) >= 1;
    forall f ensures Count(rest, f) == if Managed(n, first, f) && f !in owner && f !in more then 1 else 0 {
      assert Count(free, f) == Count(rest, f) + if free[0] == f then 1 else 0;
    }
  }

  /** kfree of a frame in hand: it is the new head of the list. */
  lemma KfreeAccounts(free: seq<nat>, n: nat, first: nat, owner: map<nat, Slot>, hand: set<nat>, g: nat)
    requires Accounts(free, n, first, owner, hand) && g in hand
    ensures Accounts([g] + free, n, first, owner, hand - {g})
  {
    var more, less := [g] + free, hand - {g};
    assert more[1..] == free;
    forall f ensures Count(more, f) == if Managed(n, first, f) && f !in owner && f !in less then 1 else 0 {
      assert Count(more, f) == Count(free, f) + if g == f then 1 else 0;
    }
  }

  // ---------------------------------------------------------------- one place changes

  /** Every place is as before, except that s now holds f. */
  ghost predicate SlotsBut(p: seq<Frame>, q: seq<Frame>, dirs: set<nat>, s: Slot, f: Option<nat>) {
    |q| == |p| && forall t: Slot :: t.pd in dirs && InRange(t) ==> SlotBut(p, q, s, f, t)
  }

  predicate SlotBut(p: seq<Frame>, q: seq<Frame>, s: Slot, f: Option<nat>, t: Slot) {
    Held(q, t) == if t == s then f else Held(p, t)
  }

  /** An empty place receives a frame that was in hand and has been given its contents. */
  lemma Grant(p: seq<Frame>, q: seq<Frame>, first: nat, dirs: set<nat>, owner: map<nat, Slot>, s: Slot, f: nat)
    requires Places(p, first, dirs, owner) && SlotsBut(p, q, dirs, s, Some(f)) && s.pd in dirs && InRange(s)
    requires Held(p, s) == None && Managed(|p|, first, f) && f !in owner && FitsRole(q[f], s)
    requires forall g :: g in owner && FitsRole(p[g], owner[g]) ==> FitsRole(q[g], owner[g])
    ensures Places(q, first, dirs, owner[f := s])
  {
    var o := owner[f := s];
    forall t: Slot | t.pd in dirs && InRange(t) ensures SlotOk(q, first, o, t) {
      assert SlotOk(p, first, owner, t) && SlotBut(p, q, s, Some(f), t);
    }
    forall g | g in o ensures FrameOk(q, first, dirs, o, g) {
      if g != f { assert FrameOk(p, first, dirs, owner, g); }
      assert SlotBut(p, q, s, Some(f), o[g]);
    }
  }

  /** A place gives up its frame. */
  lemma Revoke(p: seq<Frame>, q: seq<Frame>, first: nat, dirs: set<nat>, owner: map<nat, Slot>, s: Slot, f: nat)
    requires Places(p, first, dirs, owner) && SlotsBut(p, q, dirs, s, None) && s.pd in dirs && InRange(s) && Held(p, s) == Some(f)
    requires forall g :: g in owner && g != f && FitsRole(p[g], owner[g]) ==> FitsRole(q[g], owner[g])
    ensures f in owner && owner[f] == s && Managed(|p|, first, f) && Places(q, first, dirs, owner - {f})
  {
    var o := owner - {f};
    assert SlotOk(p, first, owner, s);
    forall t: Slot | t.pd in dirs && InRange(t) ensures SlotOk(q, first, o, t) {
      assert SlotOk(p, first, owner, t) && SlotBut(p, q, s, None, t);
    }
    forall g | g in o ensures FrameOk(q, first, dirs, o, g) {
      assert FrameOk(p, first, dirs, owner, g) && SlotBut(p, q, s, None, owner[g]);
    }
  }

  // ---------------------------------------------------------------- the mappings

  /** Every mapping of every directory is as before. */
  ghost predicate MapsSame(p: seq<Frame>, q: seq<Frame>, dirs: set<nat>) {
    forall d, v :: d in dirs && 0 <= v < NPAGES ==> Walk(q, d, v) == Walk(p, d, v)
  }

  /** Every mapping is as before, except that page v of pd now has entry w. */
  ghost predicate MapsBut(p: seq<Frame>, q: seq<Frame>, dirs: set<nat>, pd: nat, v: nat, w: Pte) {
    forall d, u :: d in dirs && 0 <= u < NPAGES ==> MapBut(p, q, pd, v, w, d, u)
  }

  predicate MapBut(p: seq<Frame>, q: seq<Frame>, pd: nat, v: nat, w: Pte, d: nat, u: nat) {
    Walk(q, d, u) == if d == pd && u == v then w else Walk(p, d, u)
  }

  function ZeroTable(): Frame { Table(seq(NPT, _ => NOENTRY)) }

  /** A directory is a table and belongs to itself. */
  lemma DirIsTable(p: seq<Frame>, first: nat, dirs: set<nat>, owner: map<nat, Slot>, d: nat)
    requires Places(p, first, dirs, owner) && d in dirs
    ensures Managed(|p|, first, d) && IsTable(p[d]) && d in owner && owner[d] == Top(d)
  {
    assert SlotOk(p, first, owner, Top(d));
  }

  /** A present directory entry leads to a table that belongs to it alone. */
  lemma TabIsTable(p: seq<Frame>, first: nat, dirs: set<nat>, owner: map<nat, Slot>, d: nat, i: nat)
    requires Places(p, first, dirs, owner) && d in dirs && i < NPT && Entry(p, d, i).Present()
    ensures var f := Entry(p, d, i).frame; Managed(|p|, first, f) && IsTable(p[f]) && f in owner && owner[f] == Tab(d, i)
  {
    assert SlotOk(p, first, owner, Tab(d, i));
  }

  /** Frames that belong to no place can be written at will. */
  lemma FillFrame(p: seq<Frame>, first: nat, dirs: set<nat>, owner: map<nat, Slot>, f: nat, fr: Frame)
    requires Places(p, first, dirs, owner) && Managed(|p|, first, f) && f !in owner
    ensures Places(p[f := fr], first, dirs, owner) && MapsSame(p, p[f := fr], dirs)
  {
    var q := p[f := fr];
    forall d, v | d in dirs && 0 <= v < NPAGES ensures Walk(q, d, v) == Walk(p, d, v) {
      DirIsTable(p, first, dirs, owner, d);
      if Entry(p, d, v / NPT).Present() { TabIsTable(p, first, dirs, owner, d, v / NPT); }
    }
    forall s: Slot | s.pd in dirs && InRange(s) ensures Held(q, s) == Held(p, s) {
      DirIsTable(p, first, dirs, owner, s.pd);
    }
    forall s: Slot | s.pd in dirs && InRange(s) ensures SlotOk(q, first, owner, s) {
      assert SlotOk(p, first, owner, s);
    }
    forall g | g in owner ensures FrameOk(q, first, dirs, owner, g) {
      assert FrameOk(p, first, dirs, owner, g);
    }
  }

  /** walkpgdir's new table: a zeroed frame, pointed to from the directory. */
  function WithTable(p: seq<Frame>, pd: nat, i: nat, f: nat): seq<Frame>
    requires pd < |p| && f < |p| && IsTable(p[pd]) && i < NPT
  {
    p[f := ZeroTable()][pd := Table(p[pd].e[i := MakePte(f, 6)])]
  }

  lemma NewTable(p: seq<Frame>, first: nat, dirs: set<nat>, owner: map<nat, Slot>, pd: nat, i: nat, f: nat)
    requires Places(p, first, dirs, owner) && pd in dirs && i < NPT && !Entry(p, pd, i).Present()
    requires Managed(|p|, first, f) && f !in owner
    ensures pd < |p| && IsTable(p[pd]) && MapsSame(p, WithTable(p, pd, i, f), dirs)
    ensures Places(WithTable(p, pd, i, f), first, dirs, owner[f := Tab(pd, i)])
  {
    DirIsTable(p, first, dirs, owner, pd);
    var q := WithTable(p, pd, i, f);
    forall d, v | d in dirs && 0 <= v < NPAGES ensures Walk(q, d, v) == Walk(p, d, v) {
      DirIsTable(p, first, dirs, owner, d);
      if Entry(p, d, v / NPT).Present() { TabIsTable(p, first, dirs, owner, d, v / NPT); }
    }
    forall t: Slot | t.pd in dirs && InRange(t) ensures SlotBut(p, q, Tab(pd, i), Some(f), t) {
      DirIsTable(p, first, dirs, owner, t.pd);
    }
    Grant(p, q, first, dirs, owner, Tab(pd, i), f);
  }

  /** Writing the entry of page v in the table that the directory points to. */
  function WithEntry(p: seq<Frame>, pd: nat, v: nat, w: Pte): seq<Frame>
    requires var t := Entry(p, pd, v / NPT).frame; t < |p| && IsTable(p[t])
  {
    var t := Entry(p, pd, v / NPT).frame;
    p[t := Table(p[t].e[v % NPT := w])]
  }

  /** The directory has a table for page v. */
  predicate HasTable(p: seq<Frame>, pd: nat, v: nat) { Entry(p, pd, v / NPT).Present() }

  lemma EntryMaps(p: seq<Frame>, first: nat, dirs: set<nat>, owner: map<nat, Slot>, pd: nat, v: nat, w: Pte)
    requires Places(p, first, dirs, owner) && pd in dirs && v < NPAGES && HasTable(p, pd, v)
    ensures var t := Entry(p, pd, v / NPT).frame; t < |p| && IsTable(p[t])
    ensures MapsBut(p, WithEntry(p, pd, v, w), dirs, pd, v, w)
    ensures forall s: Slot :: s.pd in dirs && InRange(s) && !s.Page? ==> Held(WithEntry(p, pd, v, w), s) == Held(p, s)
  {
    TabIsTable(p, first, dirs, owner, pd, v / NPT);
    var t, q := Entry(p, pd, v / NPT).frame, WithEntry(p, pd, v, w);
    forall d, u | d in dirs && 0 <= u < NPAGES ensures MapBut(p, q, pd, v, w, d, u) {
      DirIsTable(p, first, dirs, owner, d);
      if Entry(p, d, u / NPT).Present() { TabIsTable(p, first, dirs, owner, d, u / NPT); }
    }
    forall s: Slot | s.pd in dirs && InRange(s) && !s.Page? ensures Held(q, s) == Held(p, s) {
      DirIsTable(p, first, dirs, owner, s.pd);
    }
  }

  /** Mapping a user page to a frame in hand. */
  lemma MapPage(p: seq<Frame>, first: nat, dirs: set<nat>, owner: map<nat, Slot>, pd: nat, v: nat, w: Pte)
    requires Places(p, first, dirs, owner) && pd in dirs && v < UPAGES && HasTable(p, pd, v) && !Walk(p, pd, v).Present()
    requires w.Present() && Managed(|p|, first, w.frame) && w.frame !in owner && p[w.frame].Data?
    ensures var t := Entry(p, pd, v / NPT).frame; t < |p| && IsTable(p[t])
    ensures Places(WithEntry(p, pd, v, w), first, dirs, owner[w.frame := Page(pd, v)])
  {
    EntryMaps(p, first, dirs, owner, pd, v, w);
    TabIsTable(p, first, dirs, owner, pd, v / NPT);
    var q := WithEntry(p, pd, v, w);
    forall t: Slot | t.pd in dirs && InRange(t) ensures SlotBut(p, q, Page(pd, v), Some(w.frame), t) {
      if t.Page? { assert MapBut(p, q, pd, v, w, t.pd, t.v); }
    }
    Grant(p, q, first, dirs, owner, Page(pd, v), w.frame);
  }

  /** Mapping a kernel page, whose frame belongs to no place. */
  lemma MapKernel(p: seq<Frame>, first: nat, dirs: set<nat>, owner: map<nat, Slot>, pd: nat, v: nat, w: Pte)
    requires Places(p, first, dirs, owner) && pd in dirs && UPAGES <= v < NPAGES && HasTable(p, pd, v)
    ensures var t := Entry(p, pd, v / NPT).frame; t < |p| && IsTable(p[t])
    ensures Places(WithEntry(p, pd, v, w), first, dirs, owner)
  {
    EntryMaps(p, first, dirs, owner, pd, v, w);
    TabIsTable(p, first, dirs, owner, pd, v / NPT);
    var q := WithEntry(p, pd, v, w);
    forall s: Slot | s.pd in dirs && InRange(s) ensures Held(q, s) == Held(p, s) {
      if s.Page? { assert MapBut(p, q, pd, v, w, s.pd, s.v); }
    }
    forall s: Slot | s.pd in dirs && InRange(s) ensures SlotOk(q, first, owner, s) {
      assert SlotOk(p, first, owner, s);
    }
    forall g | g in owner ensures FrameOk(q, first, dirs, owner, g) {
      assert FrameOk(p, first, dirs, owner, g);
    }
  }

  /** Unmapping a user page. */
  lemma UnmapPage(p: seq<Frame>, first: nat, dirs: set<nat>, owner: map<nat, Slot>, pd: nat, v: nat, f: nat)
    requires Places(p, first, dirs, owner) && pd in dirs && v < UPAGES && HasTable(p, pd, v)
    requires Walk(p, pd, v).Present() && f == Walk(p, pd, v).frame
    ensures var t := Entry(p, pd, v / NPT).frame; t < |p| && IsTable(p[t])
    ensures f in owner && owner[f] == Page(pd, v) && Managed(|p|, first, f)
    ensures Places(WithEntry(p, pd, v, NOENTRY), first, dirs, owner - {f})
  {
    EntryMaps(p, first, dirs, owner, pd, v, NOENTRY);
    TabIsTable(p, first, dirs, owner, pd, v / NPT);
    var q := WithEntry(p, pd, v, NOENTRY);
    forall t: Slot | t.pd in dirs && InRange(t) ensures SlotBut(p, q, Page(pd, v), None, t) {
      if t.Page? { assert MapBut(p, q, pd, v, NOENTRY, t.pd, t.v); }
    }
    Revoke(p, q, first, dirs, owner, Page(pd, v), f);
  }

  // ---------------------------------------------------------------- whole address spaces

  /** A zeroed frame becomes a directory with no mappings. */
  lemma NewDir(p: seq<Frame>, q: seq<Frame>, first: nat, dirs: set<nat>, owner: map<nat, Slot>, f: nat)
    requires Places(p, first, dirs, owner) && Managed(|p|, first, f) && f !in owner && q == p[f := ZeroTable()]
    ensures f !in dirs && Places(q, first, dirs + {f}, owner[f := Top(f)])
    ensures MapsSame(p, q, dirs) && forall v :: 0 <= v < NPAGES ==> Walk(q, f, v) == NOENTRY
  {
    var o := owner[f := Top(f)];
    if f in dirs { DirIsTable(p, first, dirs, owner, f); }
    FillFrame(p, first, dirs, owner, f, ZeroTable());
    forall s: Slot | s.pd in dirs + {f} && InRange(s) ensures SlotOk(q, first, o, s) {
      if s.pd in dirs { assert SlotOk(q, first, owner, s); }
    }
    forall g | g in o ensures FrameOk(q, first, dirs + {f}, o, g) {
      if g != f { assert FrameOk(q, first, dirs, owner, g); }
    }
  }

  /** The frames of one address space. */
  ghost function FramesOf(owner: map<nat, Slot>, pd: nat): set<nat> {
    set f | f in owner && owner[f].pd == pd
  }

  /** Giving up an address space: its frames belong to no place any more, and the other address
      spaces are untouched. */
  lemma Detach(p: seq<Frame>, first: nat, dirs: set<nat>, owner: map<nat, Slot>, pd: nat)
    requires Places(p, first, dirs, owner)
    ensures Places(p, first, dirs - {pd}, owner - FramesOf(owner, pd))
  {
    var o := owner - FramesOf(owner, pd);
    forall s: Slot | s.pd in dirs - {pd} && InRange(s) ensures SlotOk(p, first, o, s) {
      assert SlotOk(p, first, owner, s);
    }
    forall g | g in o ensures FrameOk(p, first, dirs - {pd}, o, g) {
      assert FrameOk(p, first, dirs, owner, g);
    }
  }

  lemma DetachAccounts(free: seq<nat>, p: seq<Frame>, first: nat, dirs: set<nat>, owner: map<nat, Slot>, hand: set<nat>, pd: nat)
    requires Places(p, first, dirs, owner) && Accounts(free, |p|, first, owner, hand)
    ensures Accounts(free, |p|, first, owner - FramesOf(owner, pd), hand + FramesOf(owner, pd))
  {
    forall f | f in FramesOf(owner, pd) ensures Managed(|p|, first, f) {
      assert FrameOk(p, first, dirs, owner, f);
    }
  }

  // ---------------------------------------------------------------- deallocuvm's skip

  /** A page that deallocuvm, starting at page `from`, steps over: it found no table for its
      start, which is not the first page of a table, and no table up to the one of page u, so it
      arrives in that table past u. */
  predicate Missed(p: seq<Frame>, pd: nat, from: nat, u: nat) {
    && u / NPT > from / NPT && u % NPT < from % NPT
    && (forall r :: from / NPT <= r < u / NPT ==> !Entry(p, pd, r).Present())
  }

  /** The mapped user pages are the first sz. */
  ghost predicate Prefix(p: seq<Frame>, pd: nat, sz: nat) {
    forall v :: 0 <= v < UPAGES ==> (Walk(p, pd, v).Present() <==> v < sz)
  }

  /** Nothing is missed from the start of a table, from a page that has a table, or in a
      contiguous address space. */
  lemma SkipSound(p: seq<Frame>, pd: nat, from: nat, sz: nat, u: nat)
    requires from % NPT == 0 || HasTable(p, pd, from) || (from < UPAGES && Prefix(p, pd, sz))
    requires u < UPAGES && Missed(p, pd, from, u)
    ensures !Walk(p, pd, u).Present()
  {
    assert !Entry(p, pd, from / NPT).Present();
    if from < UPAGES && Prefix(p, pd, sz) { assert !Walk(p, pd, from).Present(); }
  }

  /** A directory in frame 1 with a table for the second region only, in frame 2, which maps page
      1024 to frame 3. */
  function SkippedMemory(): seq<Frame> {
    [Junk, Table(seq(NPT, i => if i == 1 then Pte(2, 7) else NOENTRY)),
     Table(seq(NPT, i => if i == 0 then Pte(3, 7) else NOENTRY)), Data(seq(4096, _ => 0))]
  }

  /** Otherwise a mapped page can be missed: there, in a sound memory, freeing from page 1 on steps
      over page 1024. */
  lemma SkipUnsound()
    ensures var p, owner := SkippedMemory(), map[1 := Top(1), 2 := Tab(1, 1), 3 := Page(1, NPT)];
      Places(p, 1, {1}, owner) && Accounts([], |p|, 1, owner, {})
    ensures Missed(SkippedMemory(), 1, 1, NPT) && Walk(SkippedMemory(), 1, NPT).Present()
  {
    var p, owner := SkippedMemory(), map[1 := Top(1), 2 := Tab(1, 1), 3 := Page(1, NPT)];
    assert Entry(p, 1, 1) == Pte(2, 7) && Entry(p, 2, 0) == Pte(3, 7);
    forall s: Slot | s.pd in {1} && InRange(s) ensures SlotOk(p, 1, owner, s) {
      if s.Page? && Walk(p, 1, s.v).Present() { assert s.v / NPT == 1 && s.v % NPT == 0 && s.v == NPT; }
    }
  }
}
