/** balloc, bfree, bmap, itrunc, readi, writei and iupdate (fs.c). Blocks are read and written
    through the cache and the log, so each operation here works on the current contents. */
module FsCode {
  import opened Fs
  import opened FsFrame

  /** Everything but slot s of inode i survives the grant of block b to it. */
  ghost predicate OnlySlot(d: Disk, r: Disk, first: nat, i: nat, s: nat)
    requires Like(d, r, first) && i < |d.inodes|
  {
    && OthersSame(d, r, first, i) && r.inodes[i] == d.inodes[i].(addrs := r.inodes[i].addrs)
    && (forall k :: 0 <= k < MAXFILE && SlotFor(k) != s ==> BlockSame(d, r, first, i, k))
  }

  lemma DirectOnlySlot(d: Disk, first: nat, owner: map<nat, Ptr>, i: nat, s: nat, b: nat)
    requires Owned(d, first, owner) && i < |d.inodes| && s <= NDIRECT && d.inodes[i].addrs[s] == 0
    requires first <= b < |d.used| && !d.used[b]
    ensures var r := SetAddr(Grab(d, b), i, s, b);
      && SlotsBut(d, r, first, i, s, b) && Owned(r, first, owner[b := Ptr(i, s)]) && Like(d, r, first)
      && OnlySlot(d, r, first, i, s) && r.blocks[b] == Zero()
  {
    var r := SetAddr(Grab(d, b), i, s, b);
    GrantDirect(d, first, owner, i, s, b);
    forall j, k | 0 <= j < |d.inodes| && 0 <= k < MAXFILE && (j != i || SlotFor(k) != s)
      ensures BlockSame(d, r, first, j, k)
    {
      GrantFrame(d, r, first, owner, i, s, b, j, k);
    }
  }

  lemma EntryOnlySlot(d: Disk, first: nat, owner: map<nat, Ptr>, i: nat, e: nat, b: nat)
    requires Owned(d, first, owner) && i < |d.inodes| && e < NINDIRECT && d.inodes[i].addrs[ROOT] != 0
    requires SlotAt(d, first, i, NDIRECT + 1 + e) == 0 && first <= b < |d.used| && !d.used[b]
    ensures var r := SetEntry(Grab(d, b), d.inodes[i].addrs[ROOT], e, b);
      && SlotsBut(d, r, first, i, NDIRECT + 1 + e, b) && Owned(r, first, owner[b := Ptr(i, NDIRECT + 1 + e)])
      && Like(d, r, first) && OnlySlot(d, r, first, i, NDIRECT + 1 + e) && r.blocks[b] == Zero()
  {
    var root, s := d.inodes[i].addrs[ROOT], NDIRECT + 1 + e;
    var r := SetEntry(Grab(d, b), root, e, b);
    GrantEntry(d, first, owner, i, e, b);
    UnheldBlock(d, first, owner, b, i);
    forall j, k | 0 <= j < |d.inodes| && 0 <= k < MAXFILE && (j != i || SlotFor(k) != s)
      ensures BlockSame(d, r, first, j, k)
    {
      GrantFrame(d, r, first, owner, i, s, b, j, k);
    }
  }

  lemma OnlyTrans(d: Disk, r: Disk, t: Disk, first: nat, i: nat, s: nat)
    requires Like(d, r, first) && Like(r, t, first) && i < |d.inodes| && s < NSLOTS
    requires OnlySlot(d, r, first, i, ROOT) && OnlySlot(r, t, first, i, s)
    ensures OnlySlot(d, t, first, i, s)
  {
    OthersTrans(d, r, t, first, i);
    forall k | 0 <= k < MAXFILE && SlotFor(k) != s ensures BlockSame(d, t, first, i, k) {
      assert BlockSame(d, r, first, i, k) && BlockSame(r, t, first, i, k);
    }
  }

  /** Nothing changed, so nothing but slot s did. */
  lemma OnlySelf(d: Disk, first: nat, i: nat, s: nat, v: nat)
    requires Shape(d, first) && i < |d.inodes| && s < NSLOTS && v == SlotAt(d, first, i, s)
    ensures OnlySlot(d, d, first, i, s) && SlotsBut(d, d, first, i, s, v)
  {
    forall j, k | 0 <= j < |d.inodes| && 0 <= k < MAXFILE ensures BlockSame(d, d, first, j, k) {}
    forall j, t | 0 <= j < |d.inodes| && 0 <= t < NSLOTS ensures SlotBut(d, d, first, i, s, v, j, t) {}
  }

  // ---------------------------------------------------------------- writing one block's part

  function Max(a: nat, b: nat): nat { if a < b then b else a }

  /** min(n - tot, BSIZE - off % BSIZE): how much of the rest fits in the block at off. */
  function PartSize(off: nat, rest: nat): (m: nat)
    requires rest > 0
    ensures 0 < m <= rest && off % BSIZE + m <= BSIZE && (m == rest || (off + m) % BSIZE == 0)
  {
    if rest < BSIZE - off % BSIZE then rest else BSIZE - off % BSIZE
  }

  lemma SliceJoin(c: seq<byte>, a: nat, b: nat, e: nat)
    requires a <= b <= e <= |c|
    ensures c[a..b] + c[b..e] == c[a..e]
  {
  }

  /** memmove of data into a block at offset o. */
  function Patch(b: Block, o: nat, data: seq<byte>): Block
    requires o + |data| <= BSIZE
  {
    b[..o] + data + b[o + |data|..]
  }

  function WrittenByte(d: Disk, first: nat, i: nat, src: seq<byte>, off: nat, tot: nat, x: nat): byte
    requires Shape(d, first) && i < |d.inodes| && x < MAXFILE * BSIZE && tot <= |src|
  {
    if off <= x < off + tot then src[x - off] else FileByte(d, first, i, x)
  }

  /** The blocks of file i after tot bytes of src have been written at off: it has the blocks for
      cur bytes, those bytes are the old ones overlaid by the new ones, the inode has changed
      only if the file has grown, and the other files have not changed. */
  ghost predicate Written(d: Disk, r: Disk, first: nat, i: nat, src: seq<byte>, off: nat, tot: nat, cur: nat) {
    && WrittenFrame(d, r, first, i, cur) && tot <= |src| && cur == Max(d.inodes[i].size, off + tot)
    && WrittenBytes(d, r, first, i, src, off, tot, cur)
  }

  ghost predicate WrittenFrame(d: Disk, r: Disk, first: nat, i: nat, cur: nat) {
    && Like(d, r, first) && i < |d.inodes| && OthersSame(d, r, first, i)
    && r.inodes[i] == d.inodes[i].(addrs := r.inodes[i].addrs)
    && Sized(r, first, i, cur) && (cur == d.inodes[i].size ==> r.inodes[i] == d.inodes[i])
  }

  ghost predicate WrittenBytes(d: Disk, r: Disk, first: nat, i: nat, src: seq<byte>, off: nat, tot: nat, cur: nat)
    requires Like(d, r, first) && i < |d.inodes| && tot <= |src| && cur <= MAXFILE * BSIZE
  {
    forall x :: 0 <= x < cur ==> FileByte(r, first, i, x) == WrittenByte(d, first, i, src, off, tot, x)
  }

  /** bmap at an offset within the file or at its end makes the file's blocks fit the longer size. */
  lemma MapSized(d: Disk, r: Disk, first: nat, i: nat, off: nat, cur: nat, m: nat)
    requires Like(d, r, first) && i < |d.inodes| && Sized(d, first, i, cur) && off <= cur && 0 < m
    requires var bn := off / BSIZE;
      && bn < MAXFILE && off + m <= (bn + 1) * BSIZE && OnlySlot(d, r, first, i, SlotFor(bn))
      && SlotAt(r, first, i, SlotFor(bn)) != 0
      && (if bn < NDIRECT then SlotAt(r, first, i, ROOT) == SlotAt(d, first, i, ROOT) else SlotAt(r, first, i, ROOT) != 0)
    ensures Sized(r, first, i, Max(cur, off + m))
  {
    var bn, now := off / BSIZE, Max(cur, off + m);
    forall k | 0 <= k < MAXFILE ensures Present(r, first, i, k, now) {
      assert Present(d, first, i, k, cur);
      if k != bn { assert BlockSame(d, r, first, i, k); }
    }
  }

  /** Bytes outside block bn are untouched by what bmap and the patch do. */
  lemma OtherBytes(d: Disk, m: Disk, r: Disk, first: nat, i: nat, bn: nat, x: nat)
    requires Like(d, m, first) && Like(m, r, first) && i < |d.inodes| && bn < MAXFILE && x < MAXFILE * BSIZE
    requires OnlySlot(d, m, first, i, SlotFor(bn)) && x / BSIZE != bn && SlotAt(d, first, i, SlotFor(x / BSIZE)) != 0
    requires forall k :: 0 <= k < MAXFILE && k != bn ==> BlockSame(m, r, first, i, k)
    ensures FileByte(r, first, i, x) == FileByte(d, first, i, x)
  {
    assert BlockSame(d, m, first, i, x / BSIZE) && BlockSame(m, r, first, i, x / BSIZE);
  }

  /** Bytes of block bn after the patch: the new ones where the patch lies, else the old ones of
      the file, and if the block is new the patch starts at the end of the file. */
  lemma PatchedByte(d: Disk, m: Disk, r: Disk, first: nat, i: nat, addr: nat, off: nat, data: seq<byte>, cur: nat, x: nat)
    requires Like(d, m, first) && Like(m, r, first) && i < |d.inodes| && Sized(d, first, i, cur) && off <= cur
    requires var bn := off / BSIZE;
      && bn < MAXFILE && off % BSIZE + |data| <= BSIZE && |data| > 0
      && addr == SlotAt(m, first, i, SlotFor(bn)) == SlotAt(r, first, i, SlotFor(bn)) && 0 < addr < |m.blocks|
      && (SlotAt(d, first, i, SlotFor(bn)) != 0 ==> m == d)
      && r.blocks[addr] == Patch(m.blocks[addr], off % BSIZE, data)
    requires x < Max(cur, off + |data|) && x < MAXFILE * BSIZE && x / BSIZE == off / BSIZE
    ensures FileByte(r, first, i, x) == if off <= x < off + |data| then data[x - off] else FileByte(d, first, i, x)
  {
    var o := off % BSIZE;
    assert x % BSIZE - o == x - off;
    assert Present(d, first, i, off / BSIZE, cur);
    if off <= x < off + |data| {
      assert r.blocks[addr][x % BSIZE] == data[x - off];
    } else {
      assert m.blocks[addr][x % BSIZE] == r.blocks[addr][x % BSIZE];
    }
  }

  /** What bmap at offset off of file i has done, addr being its answer. */
  ghost predicate Mapped(d: Disk, m: Disk, first: nat, i: nat, off: nat, addr: nat) {
    && Like(d, m, first) && i < |d.inodes| && off < MAXFILE * BSIZE
    && var bn := off / BSIZE;
      && OnlySlot(d, m, first, i, SlotFor(bn)) && addr == SlotAt(m, first, i, SlotFor(bn)) && 0 < addr < |m.blocks|
      && (SlotAt(d, first, i, SlotFor(bn)) != 0 ==> m == d)
      && (if bn < NDIRECT then SlotAt(m, first, i, ROOT) == SlotAt(d, first, i, ROOT) else SlotAt(m, first, i, ROOT) != 0)
  }

  function PatchAt(m: Disk, addr: nat, off: nat, data: seq<byte>): Disk
    requires addr < |m.blocks| && off % BSIZE + |data| <= BSIZE
  {
    m.(blocks := m.blocks[addr := Patch(m.blocks[addr], off % BSIZE, data)])
  }

  /** Writing data at off of file i, as far as its own bytes are concerned. */
  lemma StepByte(d: Disk, m: Disk, first: nat, owner: map<nat, Ptr>, i: nat, addr: nat, off: nat, data: seq<byte>, cur: nat, x: nat)
    requires Mapped(d, m, first, i, off, addr) && Owned(m, first, owner) && Sized(d, first, i, cur) && off <= cur
    requires 0 < |data| && off % BSIZE + |data| <= BSIZE && x < Max(cur, off + |data|) && x < MAXFILE * BSIZE
    ensures Like(m, PatchAt(m, addr, off, data), first)
    ensures FileByte(PatchAt(m, addr, off, data), first, i, x) == if off <= x < off + |data| then data[x - off] else FileByte(d, first, i, x)
  {
    var bn := off / BSIZE;
    PatchFrame(m, first, owner, i, bn, addr, Patch(m.blocks[addr], off % BSIZE, data));
    var r := PatchAt(m, addr, off, data);
    if x / BSIZE == bn {
      PatchedByte(d, m, r, first, i, addr, off, data, cur, x);
    } else {
      assert Present(d, first, i, x / BSIZE, cur);
      OtherBytes(d, m, r, first, i, bn, x);
    }
  }

  /** Writing data at off of file i, as far as blocks and other files are concerned. */
  lemma StepFrame(d: Disk, m: Disk, first: nat, owner: map<nat, Ptr>, i: nat, addr: nat, off: nat, data: seq<byte>, cur: nat)
    requires Mapped(d, m, first, i, off, addr) && Owned(m, first, owner) && Sized(d, first, i, cur) && off <= cur
    requires 0 < |data| && off % BSIZE + |data| <= BSIZE
    ensures var r := PatchAt(m, addr, off, data);
      && Like(d, r, first) && Owned(r, first, owner) && OthersSame(d, r, first, i)
      && r.inodes[i] == d.inodes[i].(addrs := r.inodes[i].addrs) && (off < cur && off / BSIZE * BSIZE < cur ==> r.inodes == d.inodes)
      && Sized(r, first, i, Max(cur, off + |data|))
  {
    var bn, now := off / BSIZE, Max(cur, off + |data|);
    PatchFrame(m, first, owner, i, bn, addr, Patch(m.blocks[addr], off % BSIZE, data));
    var r := PatchAt(m, addr, off, data);
    MapSized(d, m, first, i, off, cur, |data|);
    OthersTrans(d, m, r, first, i);
    assert Present(d, first, i, bn, cur);
    forall k | 0 <= k < MAXFILE ensures Present(r, first, i, k, now) {
      assert Present(m, first, i, k, now);
    }
  }

  /** One round of writei's loop: the next len bytes go into the block that bmap returned. */
  lemma WriteStep(d0: Disk, d: Disk, m: Disk, first: nat, owner: map<nat, Ptr>, i: nat, addr: nat,
                  src: seq<byte>, off: nat, tot: nat, len: nat, cur: nat)
    requires Written(d0, d, first, i, src, off, tot, cur) && 0 < len && tot + len <= |src| && off + tot + len <= MAXFILE * BSIZE
    requires off <= d0.inodes[i].size && Mapped(d, m, first, i, off + tot, addr) && Owned(m, first, owner)
    requires (off + tot) % BSIZE + len <= BSIZE
    ensures var r := PatchAt(m, addr, off + tot, src[tot..tot + len]);
      Owned(r, first, owner) && Written(d0, r, first, i, src, off, tot + len, Max(cur, off + tot + len))
  {
    var data := src[tot..tot + len];
    WriteStepFrame(d0, d, m, first, owner, i, addr, off + tot, data, cur);
    WriteStepBytes(d0, d, m, first, owner, i, addr, src, off, tot, len, cur);
  }

  lemma WriteStepFrame(d0: Disk, d: Disk, m: Disk, first: nat, owner: map<nat, Ptr>, i: nat, addr: nat, off: nat,
                       data: seq<byte>, cur: nat)
    requires WrittenFrame(d0, d, first, i, cur) && d0.inodes[i].size <= cur && off <= cur
    requires Mapped(d, m, first, i, off, addr) && Owned(m, first, owner) && 0 < |data| && off % BSIZE + |data| <= BSIZE
    ensures var r := PatchAt(m, addr, off, data);
      Owned(r, first, owner) && WrittenFrame(d0, r, first, i, Max(cur, off + |data|))
  {
    StepFrame(d, m, first, owner, i, addr, off, data, cur);
    OthersTrans(d0, d, PatchAt(m, addr, off, data), first, i);
  }

  lemma WriteStepBytes(d0: Disk, d: Disk, m: Disk, first: nat, owner: map<nat, Ptr>, i: nat, addr: nat,
                       src: seq<byte>, off: nat, tot: nat, len: nat, cur: nat)
    requires Like(d0, d, first) && i < |d0.inodes| && 0 < len && tot + len <= |src| && off + tot <= cur
    requires Max(cur, off + tot + len) <= MAXFILE * BSIZE && WrittenBytes(d0, d, first, i, src, off, tot, cur)
    requires Mapped(d, m, first, i, off + tot, addr) && Owned(m, first, owner) && Sized(d, first, i, cur)
    requires (off + tot) % BSIZE + len <= BSIZE && Like(d0, PatchAt(m, addr, off + tot, src[tot..tot + len]), first)
    ensures WrittenBytes(d0, PatchAt(m, addr, off + tot, src[tot..tot + len]), first, i, src, off, tot + len, Max(cur, off + tot + len))
  {
    var r, now := PatchAt(m, addr, off + tot, src[tot..tot + len]), Max(cur, off + tot + len);
    forall x | 0 <= x < now ensures FileByte(r, first, i, x) == WrittenByte(d0, first, i, src, off, tot + len, x) {
      WriteStepByte(d0, d, m, first, owner, i, addr, src, off, tot, len, cur, x);
    }
  }

  lemma WriteStepByte(d0: Disk, d: Disk, m: Disk, first: nat, owner: map<nat, Ptr>, i: nat, addr: nat,
                      src: seq<byte>, off: nat, tot: nat, len: nat, cur: nat, x: nat)
    requires 0 < len && tot + len <= |src| && off + tot <= cur && Shape(d0, first) && i < |d0.inodes|
    requires Mapped(d, m, first, i, off + tot, addr) && Owned(m, first, owner) && Sized(d, first, i, cur)
    requires (off + tot) % BSIZE + len <= BSIZE && x < Max(cur, off + tot + len) && x < MAXFILE * BSIZE
    requires x < cur ==> FileByte(d, first, i, x) == WrittenByte(d0, first, i, src, off, tot, x)
    ensures Like(m, PatchAt(m, addr, off + tot, src[tot..tot + len]), first)
    ensures FileByte(PatchAt(m, addr, off + tot, src[tot..tot + len]), first, i, x)
      == WrittenByte(d0, first, i, src, off, tot + len, x)
  {
    StepByte(d, m, first, owner, i, addr, off + tot, src[tot..tot + len], cur, x);
  }

  /** contents[..off] + src + contents[off + n..]. */
  function Overlay(c: seq<byte>, off: nat, src: seq<byte>): seq<byte>
    requires off <= |c|
  {
    c[..off] + src + if off + |src| < |c| then c[off + |src|..] else []
  }

  const T_DEV: int := 3
  const WORD_LIMIT: nat := 0x1_0000_0000

  /** The file after writei has recorded the new size. */
  lemma WrittenContents(d0: Disk, d: Disk, r: Disk, first: nat, i: nat, src: seq<byte>, off: nat, cur: nat)
    requires Written(d0, d, first, i, src, off, |src|, cur) && off <= d0.inodes[i].size
    requires Sized(d0, first, i, d0.inodes[i].size) && r == d.(inodes := d.inodes[i := d.inodes[i].(size := cur)])
    ensures Like(d0, r, first) && r.inodes[i].size == cur && cur <= MAXFILE * BSIZE
    ensures Contents(r, first, i) == Overlay(Contents(d0, first, i), off, src)
  {
    var c, e := Contents(r, first, i), Overlay(Contents(d0, first, i), off, src);
    forall x | 0 <= x < cur ensures c[x] == e[x] {
      assert FileByte(r, first, i, x) == FileByte(d, first, i, x);
    }
  }

  /** Recording a new size changes no pointer. */
  lemma SizeKeepsOwned(d: Disk, r: Disk, first: nat, owner: map<nat, Ptr>, i: nat, n: nat)
    requires Owned(d, first, owner) && i < |d.inodes| && r == d.(inodes := d.inodes[i := d.inodes[i].(size := n)])
    ensures Owned(r, first, owner) && Like(d, r, first) && OthersSame(d, r, first, i)
    ensures forall cur :: Sized(d, first, i, cur) ==> Sized(r, first, i, cur)
  {
    forall j, t | 0 <= j < |d.inodes| && 0 <= t < NSLOTS ensures PtrOk(r, first, owner, j, t) {
      assert PtrOk(d, first, owner, j, t);
    }
    forall c | first <= c < |r.used| ensures BlockOk(r, first, owner, 0, 0, c) {
      assert BlockOk(d, first, owner, 0, 0, c);
    }
    forall j, k | 0 <= j < |d.inodes| && 0 <= k < MAXFILE ensures BlockSame(d, r, first, j, k) {}
    forall cur | Sized(d, first, i, cur) ensures Sized(r, first, i, cur) {
      forall k | 0 <= k < MAXFILE ensures Present(r, first, i, k, cur) {
        assert Present(d, first, i, k, cur);
      }
    }
  }

  ghost predicate AllSized(d: Disk, first: nat)
    requires Shape(d, first)
  {
    forall i :: 0 <= i < |d.inodes| ==> Sized(d, first, i, d.inodes[i].size)
  }

  lemma OthersSized(d: Disk, r: Disk, first: nat, i: nat)
    requires Like(d, r, first) && i < |d.inodes| && OthersSame(d, r, first, i) && AllSized(d, first)
    requires Sized(r, first, i, r.inodes[i].size)
    ensures AllSized(r, first)
  {
    forall j | 0 <= j < |r.inodes| ensures Sized(r, first, j, r.inodes[j].size) {
      if j != i { SameContents(d, r, first, j); }
    }
  }

  lemma WrittenNothing(d: Disk, first: nat, i: nat, src: seq<byte>, off: nat)
    requires Shape(d, first) && i < |d.inodes| && Sized(d, first, i, d.inodes[i].size) && off <= d.inodes[i].size
    ensures Written(d, d, first, i, src, off, 0, d.inodes[i].size)
  {
    OnlySelf(d, first, i, 0, SlotAt(d, first, i, 0));
  }

  /** Only inode i differs. */
  lemma InodesBut(d: Disk, r: Disk, first: nat, i: nat)
    requires Like(d, r, first) && i < |d.inodes| && OthersSame(d, r, first, i)
    ensures r.inodes == d.inodes[i := r.inodes[i]]
  {
    forall j | 0 <= j < |d.inodes| && j != i ensures r.inodes[j] == d.inodes[j] {
      assert FileSame(d, r, first, j);
    }
  }

  /** The part of file i's block at off that lies in the wanted range is a slice of its contents. */
  /** A position within the file has its block. */
  lemma BlockThere(d: Disk, first: nat, i: nat, pos: nat, cur: nat)
    requires Shape(d, first) && i < |d.inodes| && Sized(d, first, i, cur) && pos < cur
    ensures pos / BSIZE < MAXFILE && SlotAt(d, first, i, SlotFor(pos / BSIZE)) != 0
  {
    assert Present(d, first, i, pos / BSIZE, cur);
  }

  lemma ReadStep(d: Disk, first: nat, i: nat, off: nat, m: nat)
    requires Shape(d, first) && i < |d.inodes| && Sized(d, first, i, d.inodes[i].size)
    requires 0 < m && off % BSIZE + m <= BSIZE && off + m <= d.inodes[i].size
    ensures off / BSIZE < MAXFILE && SlotAt(d, first, i, SlotFor(off / BSIZE)) != 0
    ensures var b := SlotAt(d, first, i, SlotFor(off / BSIZE)); b < |d.blocks| ==>
      d.blocks[b][off % BSIZE..off % BSIZE + m] == Contents(d, first, i)[off..off + m]
  {
    assert Present(d, first, i, off / BSIZE, d.inodes[i].size);
    var b := SlotAt(d, first, i, SlotFor(off / BSIZE));
    if b < |d.blocks| {
      var p, q := d.blocks[b][off % BSIZE..off % BSIZE + m], Contents(d, first, i)[off..off + m];
      forall k | 0 <= k < m ensures p[k] == q[k] {
        assert (off + k) / BSIZE == off / BSIZE && (off + k) % BSIZE == off % BSIZE + k;
        assert q[k] == FileByte(d, first, i, off + k);
      }
    }
  }

  // ---------------------------------------------------------------- truncating

  /** Slots that itrunc has dealt with: the direct ones below lo, and the first hi entries. */
  predicate Done(s: nat, lo: nat, hi: nat) { s < lo || NDIRECT < s <= NDIRECT + hi }

  /** Exactly the blocks of inode i's slots already dealt with have been given up. */
  ghost predicate Trimmed(owner: map<nat, Ptr>, o: map<nat, Ptr>, i: nat, lo: nat, hi: nat) {
    forall b :: (b in o <==> b in owner && !(owner[b].inum == i && Done(owner[b].slot, lo, hi))) && (b in o ==> o[b] == owner[b])
  }

  lemma TrimOne(owner: map<nat, Ptr>, o: map<nat, Ptr>, d: Disk, first: nat, g: nat, j: nat, i: nat, s: nat, b: nat, lo: nat, hi: nat)
    requires Trimmed(owner, o, i, lo, hi) && OwnedBut(d, first, o, g, j) && i < |d.inodes| && s < NSLOTS
    requires b == SlotAt(d, first, i, s) && (b != 0 ==> b in o && o[b] == Ptr(i, s)) && !Gone(i, s, g, j)
    ensures s == lo && lo < NDIRECT ==> Trimmed(owner, if b == 0 then o else o - {b}, i, lo + 1, hi)
    ensures s == NDIRECT + 1 + hi ==> Trimmed(owner, if b == 0 then o else o - {b}, i, lo, hi + 1)
    ensures s == lo && lo == NDIRECT && hi == NINDIRECT ==> Trimmed(owner, if b == 0 then o else o - {b}, i, lo + 1, hi)
  {
    forall c | c in owner && owner[c] == Ptr(i, s) && c in o ensures c == b {
      assert c < |d.used| && c >= first;
      assert BlockOk(d, first, o, g, j, c);
    }
  }

  /** itrunc so far: the first k pointers of the inode are cleared and nothing else but the bitmap
      has changed. */
  ghost predicate Truncating(d: Disk, r: Disk, i: nat, k: nat) {
    && r.blocks == d.blocks && |r.used| == |d.used| && i < |d.inodes| == |r.inodes|
    && r.inodes == d.inodes[i := r.inodes[i]] && r.inodes[i] == d.inodes[i].(addrs := r.inodes[i].addrs)
    && |r.inodes[i].addrs| == |d.inodes[i].addrs| == NDIRECT + 1
    && (forall t :: 0 <= t <= NDIRECT ==> r.inodes[i].addrs[t] == if t < k then 0 else d.inodes[i].addrs[t])
  }

  lemma NoneGone(d: Disk, first: nat, owner: map<nat, Ptr>, i: nat)
    requires Owned(d, first, owner)
    ensures OwnedBut(d, first, owner, i, 0)
  {
    forall b | first <= b < |d.used| ensures BlockOk(d, first, owner, i, 0, b) {
      assert BlockOk(d, first, owner, 0, 0, b);
    }
  }

  /** An inode without an indirect block owns no block through one. */
  lemma TrimNone(owner: map<nat, Ptr>, o: map<nat, Ptr>, d: Disk, first: nat, i: nat)
    requires Owned(d, first, o) && i < |d.inodes| && d.inodes[i].addrs[ROOT] == 0 && Trimmed(owner, o, i, NDIRECT, 0)
    ensures Trimmed(owner, o, i, NDIRECT + 1, NINDIRECT)
  {
    forall c | c in o ensures !(o[c].inum == i && o[c].slot >= NDIRECT) {
      assert c < |d.used| && c >= first;
      assert BlockOk(d, first, o, 0, 0, c);
    }
  }

  /** What is left when every slot has been dealt with. */
  lemma TruncatedFrame(d: Disk, m: Disk, r: Disk, first: nat, owner: map<nat, Ptr>, o: map<nat, Ptr>, i: nat)
    requires Owned(d, first, owner) && Owned(m, first, o) && AllSized(d, first)
    requires Truncating(d, m, i, NDIRECT + 1) && Trimmed(owner, o, i, NDIRECT + 1, NINDIRECT)
    requires r == m.(inodes := m.inodes[i := m.inodes[i].(size := 0)])
    ensures Owned(r, first, o) && Like(d, r, first) && OthersSame(d, r, first, i) && AllSized(r, first)
    ensures forall b :: first <= b < |d.used| ==> (r.used[b] <==> d.used[b] && !(b in owner && owner[b].inum == i))
  {
    SizeKeepsOwned(m, r, first, o, i, 0);
    forall j, k | 0 <= j < |d.inodes| && 0 <= k < MAXFILE && j != i ensures BlockSame(d, r, first, j, k) {}
    forall k | 0 <= k < MAXFILE ensures Present(r, first, i, k, 0) {}
    OthersSized(d, r, first, i);
    forall b | first <= b < |d.used| ensures r.used[b] <==> d.used[b] && !(b in owner && owner[b].inum == i) {
      assert BlockOk(d, first, owner, 0, 0, b) && BlockOk(m, first, o, 0, 0, b);
    }
  }

  class FileSystem {
    const first: nat
    var d: Disk
    var dinodes: seq<Inode>
    ghost var owner: map<nat, Ptr>

    /** Between operations: blocks are owned, every file has the blocks its size needs, and the
        inodes on the disk are those in memory. */
    ghost predicate Valid()
      reads this
    {
      Owned(d, first, owner) && AllSized(d, first) && dinodes == d.inodes
    }

    /** A mounted file system. */
    constructor (first: nat, d: Disk, ghost owner: map<nat, Ptr>)
      requires Owned(d, first, owner) && AllSized(d, first)
      ensures Valid() && this.first == first && this.d == d && this.owner == owner
    {
      this.first, this.d, this.dinodes, this.owner := first, d, d.inodes, owner;
    }

    /** balloc: the lowest free block, zeroed; it panics when there is none. */
    method Balloc() returns (ok: bool, b: nat)
      requires Shape(d, first)
      modifies this`d
      ensures ok <==> exists c :: 0 <= c < |old(d.used)| && !old(d.used)[c]
      ensures ok ==> b < |old(d.used)| && !old(d.used)[b] && (forall c :: 0 <= c < b ==> old(d.used)[c]) && d == Grab(old(d), b)
      ensures !ok ==> d == old(d)
    {
      b := 0;
      while b < |d.used| && d.used[b]
        invariant b <= |d.used| && forall c :: 0 <= c < b ==> d.used[c]
      {
        b := b + 1;
      }
      if b == |d.used| {
        return false, b;
      }
      d := Grab(d, b);
      ok := true;
    }

    /** A direct or indirect pointer of an inode, given a block if it is empty. */
    method EnsureAddr(i: nat, s: nat) returns (ok: bool, addr: nat)
      requires Owned(d, first, owner) && i < |d.inodes| && s <= NDIRECT
      modifies this`d, this`owner
      ensures !ok ==> forall c :: 0 <= c < |d.used| ==> d.used[c]
      ensures ok ==> Owned(d, first, owner) && Like(old(d), d, first) && 0 < addr < |d.blocks|
      ensures ok ==> SlotsBut(old(d), d, first, i, s, addr) && OnlySlot(old(d), d, first, i, s)
      ensures old(d.inodes[i].addrs[s]) != 0 ==> ok && d == old(d)
      ensures ok && old(d.inodes[i].addrs[s]) == 0 ==> d.blocks[addr] == Zero()
      ensures ok ==> d.inodes[i].addrs[s] == addr
    {
      addr := d.inodes[i].addrs[s];
      assert PtrOk(d, first, owner, i, s);
      if addr != 0 {
        OnlySelf(d, first, i, s, addr);
        return true, addr;
      }
      ghost var d0 := d;
      ok, addr := Balloc();
      if ok {
        DirectOnlySlot(d0, first, owner, i, s, addr);
        d := SetAddr(d, i, s, addr);
        owner := owner[addr := Ptr(i, s)];
      }
    }

    /** An entry of the indirect block, given a block if it is empty. */
    method EnsureEntry(i: nat, root: nat, e: nat) returns (ok: bool, addr: nat)
      requires Owned(d, first, owner) && i < |d.inodes| && e < NINDIRECT && root == d.inodes[i].addrs[ROOT] && root != 0
      modifies this`d, this`owner
      ensures !ok ==> forall c :: 0 <= c < |d.used| ==> d.used[c]
      ensures ok ==> Owned(d, first, owner) && Like(old(d), d, first) && 0 < addr < |d.blocks|
      ensures ok ==> SlotsBut(old(d), d, first, i, NDIRECT + 1 + e, addr) && OnlySlot(old(d), d, first, i, NDIRECT + 1 + e)
      ensures old(SlotAt(d, first, i, NDIRECT + 1 + e)) != 0 ==> ok && d == old(d)
      ensures ok && old(SlotAt(d, first, i, NDIRECT + 1 + e)) == 0 ==> d.blocks[addr] == Zero()
      ensures ok ==> d.inodes[i].addrs[ROOT] == root
    {
      addr := GetWord(d.blocks[root], e);
      assert PtrOk(d, first, owner, i, NDIRECT + 1 + e);
      if addr != 0 {
        OnlySelf(d, first, i, NDIRECT + 1 + e, addr);
        return true, addr;
      }
      ghost var d0 := d;
      ok, addr := Balloc();
      if ok {
        EntryOnlySlot(d0, first, owner, i, e, addr);
        d := SetEntry(d, root, e, addr);
        owner := owner[addr := Ptr(i, NDIRECT + 1 + e)];
      }
    }

    /** bmap: the bn-th block of a file, allocated if need be. */
    method Bmap(i: nat, bn: nat) returns (ok: bool, addr: nat)
      requires Owned(d, first, owner) && i < |d.inodes|
      modifies this`d, this`owner
      ensures !ok ==> bn >= MAXFILE || forall c :: 0 <= c < |d.used| ==> d.used[c]
      ensures ok ==> bn < MAXFILE && Owned(d, first, owner) && Like(old(d), d, first)
      ensures ok ==> addr == SlotAt(d, first, i, SlotFor(bn)) && 0 < addr < |d.blocks|
      ensures ok ==> OnlySlot(old(d), d, first, i, SlotFor(bn))
      ensures bn < MAXFILE && old(SlotAt(d, first, i, SlotFor(bn))) != 0 ==> ok && d == old(d)
      ensures ok && old(SlotAt(d, first, i, SlotFor(bn))) == 0 ==> d.blocks[addr] == Zero()
      ensures ok && bn < NDIRECT ==> SlotAt(d, first, i, ROOT) == old(SlotAt(d, first, i, ROOT))
      ensures ok && bn >= NDIRECT ==> SlotAt(d, first, i, ROOT) != 0
    {
      if bn >= MAXFILE {
        return false, 0;
      }
      if bn < NDIRECT {
        ok, addr := EnsureAddr(i, bn);
        assert ok ==> SlotBut(old(d), d, first, i, bn, addr, i, bn) && SlotBut(old(d), d, first, i, bn, addr, i, ROOT);
        return;
      }
      var root;
      ok, root := EnsureAddr(i, ROOT);
      if !ok {
        return false, 0;
      }
      ghost var d1 := d;
      ok, addr := EnsureEntry(i, root, bn - NDIRECT);
      if ok {
        OnlyTrans(old(d), d1, d, first, i, bn + 1);
        assert SlotBut(old(d), d1, first, i, ROOT, root, i, bn + 1) && SlotBut(d1, d, first, i, bn + 1, addr, i, bn + 1);
      }
    }

    /** One round of writei's loop, tot bytes having been written since the disk was d0: m more. */
    method WriteBlock(i: nat, src: seq<byte>, off: nat, tot: nat, ghost d0: Disk, ghost cur: nat) returns (ok: bool, m: nat)
      requires Owned(d, first, owner) && Shape(d0, first) && i < |d0.inodes| && off <= d0.inodes[i].size
      requires tot < |src| && off + |src| <= MAXFILE * BSIZE && Written(d0, d, first, i, src, off, tot, cur)
      modifies this`d, this`owner
      ensures !ok ==> forall c :: 0 <= c < |d.used| ==> d.used[c]
      ensures off + tot < cur ==> ok
      ensures ok ==> 0 < m && tot + m <= |src| && Owned(d, first, owner)
      ensures ok ==> Written(d0, d, first, i, src, off, tot + m, Max(cur, off + tot + m))
    {
      ghost var before := d;
      if off + tot < cur { BlockThere(d, first, i, off + tot, cur); }
      var addr;
      ok, addr := Bmap(i, (off + tot) / BSIZE);
      if !ok {
        return false, 0;
      }
      m := PartSize(off + tot, |src| - tot);
      assert Mapped(before, d, first, i, off + tot, addr);
      WriteStep(d0, before, d, first, owner, i, addr, src, off, tot, m, cur);
      d := PatchAt(d, addr, off + tot, src[tot..tot + m]);
    }

    /** writei's loop: copies src into the file block by block. */
    method WriteBlocks(i: nat, src: seq<byte>, off: nat) returns (ok: bool, ghost cur: nat)
      requires Owned(d, first, owner) && AllSized(d, first) && i < |d.inodes|
      requires off <= d.inodes[i].size && off + |src| <= MAXFILE * BSIZE
      modifies this`d, this`owner
      ensures !ok ==> forall c :: 0 <= c < |d.used| ==> d.used[c]
      ensures ok ==> Owned(d, first, owner) && Written(old(d), d, first, i, src, off, |src|, cur)
      ensures off + |src| <= old(d.inodes[i].size) ==> ok
    {
      ghost var d0 := d;
      var tot := 0;
      cur := d.inodes[i].size;
      WrittenNothing(d, first, i, src, off);
      while tot < |src|
        invariant 0 <= tot <= |src| && Owned(d, first, owner) && Written(d0, d, first, i, src, off, tot, cur)
      {
        var m;
        ok, m := WriteBlock(i, src, off, tot, d0, cur);
        if !ok {
          return;
        }
        tot, cur := tot + m, Max(cur, off + tot + m);
      }
      ok := true;
    }

    /** iupdate: the disk's copy of the inode. If it was the only stale one, memory and disk agree
        again. */
    method Iupdate(i: nat)
      requires i < |d.inodes| == |dinodes|
      modifies this`dinodes
      ensures |dinodes| == |old(dinodes)| && dinodes[i] == d.inodes[i]
      ensures forall j :: 0 <= j < |dinodes| && j != i ==> dinodes[j] == old(dinodes)[j]
      ensures dinodes == d.inodes <==> forall j :: 0 <= j < |dinodes| && j != i ==> old(dinodes)[j] == d.inodes[j]
    {
      dinodes := dinodes[i := d.inodes[i]];
    }

    /** writei on a file that is not a device; ok is false when balloc panics, which it cannot do for
        a write within the file, and n is -1 for a refused request. */
    method Writei(i: nat, src: seq<byte>, off: nat) returns (ok: bool, n: int)
      requires Valid() && i < |d.inodes| && d.inodes[i].kind != T_DEV && off < WORD_LIMIT && |src| < WORD_LIMIT
      modifies this
      ensures !ok ==> forall c :: 0 <= c < |d.used| ==> d.used[c]
      ensures ok ==> Valid() && Like(old(d), d, first) && OthersSame(old(d), d, first, i)
      ensures ok ==> n == if off > old(d.inodes[i].size) || off + |src| > MAXFILE * BSIZE then -1 else |src|
      ensures ok && n == -1 ==> d == old(d)
      ensures ok ==> d.inodes[i] == old(d.inodes[i]).(size := d.inodes[i].size, addrs := d.inodes[i].addrs)
      ensures ok && n >= 0 ==> Contents(d, first, i) == Overlay(old(Contents(d, first, i)), off, src)
      ensures off + |src| <= old(d.inodes[i].size) ==> ok
    {
      if off > d.inodes[i].size || (off + |src|) % WORD_LIMIT < off {
        return true, -1;
      }
      if off + |src| > MAXFILE * BSIZE {
        return true, -1;
      }
      ghost var d0 := d;
      ghost var cur: nat;
      ok, cur := WriteBlocks(i, src, off);
      if !ok {
        return false, 0;
      }
      n := |src|;
      var end := off + |src|;
      ghost var r := d.(inodes := d.inodes[i := d.inodes[i].(size := cur)]);
      WrittenContents(d0, d, r, first, i, src, off, cur);
      SizeKeepsOwned(d, r, first, owner, i, cur);
      OthersTrans(d0, d, r, first, i);
      OthersSized(d0, r, first, i);
      InodesBut(d0, r, first, i);
      if |src| > 0 && end > d.inodes[i].size {
        d := d.(inodes := d.inodes[i := d.inodes[i].(size := end)]);
        Iupdate(i);
      } else {
        assert d.inodes[i := d.inodes[i]] == d.inodes;
      }
    }

    /** The part of one block that readi copies. */
    method ReadBlock(i: nat, off: nat, m: nat) returns (part: seq<byte>)
      requires Owned(d, first, owner) && i < |d.inodes| && Sized(d, first, i, d.inodes[i].size)
      requires 0 < m && off % BSIZE + m <= BSIZE && off + m <= d.inodes[i].size
      modifies this`d, this`owner
      ensures d == old(d) && Owned(d, first, owner) && part == Contents(d, first, i)[off..off + m]
    {
      ReadStep(d, first, i, off, m);
      var ok, addr := Bmap(i, off / BSIZE);
      var o := off % BSIZE;
      part := d.blocks[addr][o..o + m];
    }

    /** readi's loop. */
    method ReadBlocks(i: nat, off: nat, n: nat) returns (dst: seq<byte>)
      requires Owned(d, first, owner) && i < |d.inodes| && Sized(d, first, i, d.inodes[i].size) && off + n <= d.inodes[i].size
      modifies this`d, this`owner
      ensures d == old(d) && Owned(d, first, owner) && dst == Contents(d, first, i)[off..off + n]
    {
      ghost var d0, c := d, Contents(d, first, i);
      dst := [];
      var tot := 0;
      while tot < n
        invariant 0 <= tot <= n && d == d0 && Owned(d, first, owner) && dst == c[off..off + tot]
      {
        var m := PartSize(off + tot, n - tot);
        var part := ReadBlock(i, off + tot, m);
        SliceJoin(c, off, off + tot, off + tot + m);
        dst := dst + part;
        tot := tot + m;
      }
    }

    /** readi on a file that is not a device: the matching slice of the contents, shortened to the
        end of the file, or -1. It never allocates and never panics. */
    method Readi(i: nat, off: nat, count: nat) returns (n: int, dst: seq<byte>)
      requires Valid() && i < |d.inodes| && d.inodes[i].kind != T_DEV && off < WORD_LIMIT && count < WORD_LIMIT
      modifies this`d, this`owner
      ensures Valid() && d == old(d)
      ensures n == -1 <==> off > d.inodes[i].size || off + count >= WORD_LIMIT
      ensures n != -1 ==> n == if off + count > d.inodes[i].size then d.inodes[i].size - off else count
      ensures n != -1 ==> 0 <= n && off + n <= d.inodes[i].size && dst == Contents(d, first, i)[off..off + n]
    {
      var size := d.inodes[i].size;
      if off > size || (off + count) % WORD_LIMIT < off {
        return -1, [];
      }
      n := if off + count > size then size - off else count;
      dst := ReadBlocks(i, off, n);
    }

    /** bfree: panics, giving false, if the block is already free, that is, exactly when it is a
        data block that no pointer holds. */
    method Bfree(b: nat) returns (ok: bool)
      requires b < |d.used|
      modifies this`d
      ensures ok <==> old(d.used)[b]
      ensures d == if ok then Drop(old(d), b) else old(d)
      ensures old(Owned(d, first, owner)) ==> (ok <==> b < first || b in owner)
    {
      if Owned(d, first, owner) { MarkedIsOwned(d, first, owner, b); }
      ok := d.used[b];
      if ok {
        d := Drop(d, b);
      }
    }

    /** The second half of itrunc: the entries of the indirect block, then the block itself. o0 is
        the ownership before itrunc began. */
    method FreeIndirect(i: nat, ghost o0: map<nat, Ptr>) returns (ok: bool)
      requires Owned(d, first, owner) && i < |d.inodes| && Trimmed(o0, owner, i, NDIRECT, 0)
      modifies this`d, this`owner
      ensures ok && Owned(d, first, owner) && Trimmed(o0, owner, i, NDIRECT + 1, NINDIRECT)
      ensures d.blocks == old(d.blocks) && |d.used| == |old(d.used)|
      ensures d.inodes == old(d.inodes)[i := old(d.inodes[i]).(addrs := old(d.inodes[i].addrs)[ROOT := 0])]
    {
      var root := d.inodes[i].addrs[ROOT];
      if root == 0 {
        TrimNone(o0, owner, d, first, i);
        assert d.inodes[i].addrs[ROOT := 0] == d.inodes[i].addrs;
        return true;
      }
      var j := 0;
      ok := true;
      NoneGone(d, first, owner, i);
      while j < NINDIRECT && ok
        invariant 0 <= j <= NINDIRECT && ok && OwnedBut(d, first, owner, i, j) && Trimmed(o0, owner, i, NDIRECT, j)
        invariant d == old(d).(used := d.used) && |d.used| == |old(d.used)|
      {
        var b := GetWord(d.blocks[root], j);
        assert PtrOk(d, first, owner, i, NDIRECT + 1 + j);
        TrimOne(o0, owner, d, first, i, j, i, NDIRECT + 1 + j, b, NDIRECT, j);
        RevokeEntry(d, if b == 0 then d else Drop(d, b), first, owner, if b == 0 then owner else owner - {b}, i, j, b);
        if b != 0 {
          ok := Bfree(b);
          owner := owner - {b};
        }
        j := j + 1;
      }
      RevokeRoot(d, first, owner, i, root);
      TrimOne(o0, owner, d, first, i, NINDIRECT, i, ROOT, root, NDIRECT, NINDIRECT);
      ok := Bfree(root);
      d := SetAddr(d, i, ROOT, 0);
      owner := owner - {root};
    }

    /** The first half of itrunc: the direct blocks. */
    method FreeDirect(i: nat) returns (ok: bool)
      requires Owned(d, first, owner) && i < |d.inodes|
      modifies this`d, this`owner
      ensures ok && Owned(d, first, owner) && Trimmed(old(owner), owner, i, NDIRECT, 0) && Truncating(old(d), d, i, NDIRECT)
    {
      ghost var d0, o0 := d, owner;
      ok := true;
      var k := 0;
      while k < NDIRECT && ok
        invariant 0 <= k <= NDIRECT && ok && Owned(d, first, owner) && Trimmed(o0, owner, i, k, 0) && Truncating(d0, d, i, k)
      {
        var b := d.inodes[i].addrs[k];
        assert PtrOk(d, first, owner, i, k);
        TrimOne(o0, owner, d, first, 0, 0, i, k, b, k, 0);
        if b != 0 {
          RevokeDirect(d, first, owner, i, k, b);
          ok := Bfree(b);
          d := SetAddr(d, i, k, 0);
          owner := owner - {b};
        }
        k := k + 1;
      }
    }

    /** itrunc: frees exactly the inode's blocks, each of which is in use, so bfree never panics;
        no block's contents and no other file change. */
    method Itrunc(i: nat) returns (ok: bool)
      requires Valid() && i < |d.inodes|
      modifies this
      ensures ok && Valid() && Like(old(d), d, first) && d.blocks == old(d.blocks) && OthersSame(old(d), d, first, i)
      ensures d.inodes[i].kind == old(d.inodes[i]).kind && d.inodes[i].nlink == old(d.inodes[i]).nlink && d.inodes[i].size == 0
      ensures forall t :: 0 <= t <= NDIRECT ==> d.inodes[i].addrs[t] == 0
      ensures forall b :: first <= b < |d.used| ==>
        (d.used[b] <==> old(d.used)[b] && !(b in old(owner) && old(owner)[b].inum == i))
    {
      ghost var d0, o0 := d, owner;
      ok := FreeDirect(i);
      ok := FreeIndirect(i, o0);
      TruncatedFrame(d0, d, d.(inodes := d.inodes[i := d.inodes[i].(size := 0)]), first, o0, owner, i);
      d := d.(inodes := d.inodes[i := d.inodes[i].(size := 0)]);
      Iupdate(i);
    }
  }
}
