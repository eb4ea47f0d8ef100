/** Blocks, block pointers and who owns which block (fs.c). A file system is a bitmap, the
    contents of the blocks, and the inodes. */
module Fs {
  type byte = x: int | 0 <= x < 256
  type Block = b: seq<byte> | |b| == BSIZE witness seq(BSIZE, _ => 0)

  const BSIZE: nat := 512
  const NDIRECT: nat := 12
  const NINDIRECT: nat := 128
  const MAXFILE: nat := NDIRECT + NINDIRECT

  // ---------------------------------------------------------------- words in a block

  function Zero(): Block { seq(BSIZE, _ => 0) }

  /** The k-th little-endian word of a block. */
  function GetWord(b: Block, k: nat): nat
    requires k < NINDIRECT
  {
    b[4 * k] as int + 0x100 * (b[4 * k + 1] as int) + 0x1_0000 * (b[4 * k + 2] as int) + 0x100_0000 * (b[4 * k + 3] as int)
  }

  function SetWord(b: Block, k: nat, w: nat): Block
    requires k < NINDIRECT && w < 0x1_0000_0000
  {
    b[4 * k := w % 0x100][4 * k + 1 := w / 0x100 % 0x100][4 * k + 2 := w / 0x1_0000 % 0x100][4 * k + 3 := w / 0x100_0000]
  }

  lemma SetGet(b: Block, k: nat, w: nat, j: nat)
    requires k < NINDIRECT && j < NINDIRECT && w < 0x1_0000_0000
    ensures GetWord(SetWord(b, k, w), j) == if j == k then w else GetWord(b, j)
  {
    var c := SetWord(b, k, w);
    if j == k {
      assert c[4 * k] == w % 0x100 && c[4 * k + 1] == w / 0x100 % 0x100;
      assert c[4 * k + 2] == w / 0x1_0000 % 0x100 && c[4 * k + 3] == w / 0x100_0000;
      WordParts(w);
    } else {
      assert c[4 * j] == b[4 * j] && c[4 * j + 1] == b[4 * j + 1];
      assert c[4 * j + 2] == b[4 * j + 2] && c[4 * j + 3] == b[4 * j + 3];
    }
  }

  lemma WordParts(w: nat)
    requires w < 0x1_0000_0000
    ensures w == w % 0x100 + 0x100 * (w / 0x100 % 0x100) + 0x1_0000 * (w / 0x1_0000 % 0x100) + 0x100_0000 * (w / 0x100_0000)
  {
    assert w / 0x100 == w / 0x100 % 0x100 + 0x100 * (w / 0x1_0000);
    assert w / 0x1_0000 == w / 0x1_0000 % 0x100 + 0x100 * (w / 0x100_0000);
  }

  lemma ZeroWords(j: nat)
    requires j < NINDIRECT
    ensures GetWord(Zero(), j) == 0
  {
  }

  // ---------------------------------------------------------------- block pointers

  datatype Inode = Inode(kind: int, nlink: nat, size: nat, addrs: seq<nat>)

  /** A place that can hold a block number: slots 0..11 are the direct pointers of an inode, 12
      is its pointer to the indirect block, 13..140 are the entries of that block. */
  datatype Ptr = Ptr(inum: nat, slot: nat)

  const ROOT: nat := NDIRECT
  const NSLOTS: nat := NDIRECT + 1 + NINDIRECT

  predicate WellFormed(ip: Inode, blocks: seq<Block>) {
    |ip.addrs| == NDIRECT + 1 && (forall k :: 0 <= k <= NDIRECT ==> ip.addrs[k] < |blocks|)
  }

  /** The block number held in a slot, 0 for none. */
  function Slot(ip: Inode, blocks: seq<Block>, s: nat): nat
    requires WellFormed(ip, blocks) && s < NSLOTS
  {
    if s <= NDIRECT then ip.addrs[s]
    else if ip.addrs[ROOT] == 0 then 0 else GetWord(blocks[ip.addrs[ROOT]], s - NDIRECT - 1)
  }

  /** The slot for the bn-th block of a file. */
  function SlotFor(bn: nat): nat
    requires bn < MAXFILE
  {
    if bn < NDIRECT then bn else bn + 1
  }

  /** The state that the operations change. */
  datatype Disk = Disk(used: seq<bool>, blocks: seq<Block>, inodes: seq<Inode>)

  /** `first` is the first data block; the blocks below hold metadata. */
  predicate Shape(d: Disk, first: nat) {
    && 0 < first <= |d.used| == |d.blocks| < 0x1_0000_0000
    && (forall i :: 0 <= i < |d.inodes| ==> WellFormed(d.inodes[i], d.blocks))
  }

  function SlotAt(d: Disk, first: nat, i: nat, s: nat): nat
    requires Shape(d, first) && i < |d.inodes| && s < NSLOTS
  {
    Slot(d.inodes[i], d.blocks, s)
  }

  /** Entries of the indirect block of inode g that itrunc() has freed, being the first j, but
      that the block still holds. */
  predicate Gone(i: nat, s: nat, g: nat, j: nat) { i == g && NDIRECT < s <= NDIRECT + j }

  /** A pointer is empty or holds a data block in use that belongs to it alone. */
  predicate PtrOk(d: Disk, first: nat, owner: map<nat, Ptr>, i: nat, s: nat)
    requires Shape(d, first) && i < |d.inodes| && s < NSLOTS
  {
    var b := SlotAt(d, first, i, s);
    b == 0 || (first <= b < |d.used| && d.used[b] && b in owner && owner[b] == Ptr(i, s))
  }

  /** A data block in use is held by its owner, and by PtrOk by nobody else. */
  predicate BlockOk(d: Disk, first: nat, owner: map<nat, Ptr>, g: nat, j: nat, b: nat)
    requires Shape(d, first) && first <= b < |d.used|
  {
    if d.used[b] then
      && b in owner && owner[b].inum < |d.inodes| && owner[b].slot < NSLOTS
      && SlotAt(d, first, owner[b].inum, owner[b].slot) == b && !Gone(owner[b].inum, owner[b].slot, g, j)
    else b !in owner
  }

  ghost predicate OwnedBut(d: Disk, first: nat, owner: map<nat, Ptr>, g: nat, j: nat) {
    && Shape(d, first)
    && (forall b :: 0 <= b < first ==> d.used[b] && b !in owner) && (forall b :: b in owner ==> b < |d.used|)
    && (forall i, s :: 0 <= i < |d.inodes| && 0 <= s < NSLOTS && !Gone(i, s, g, j) ==> PtrOk(d, first, owner, i, s))
    && (forall b :: first <= b < |d.used| ==> BlockOk(d, first, owner, g, j, b))
  }

  /** Block ownership: a bitmap bit is set exactly for the metadata blocks and the blocks held by
      exactly one pointer. */
  ghost predicate Owned(d: Disk, first: nat, owner: map<nat, Ptr>) {
    OwnedBut(d, first, owner, 0, 0)
  }

  /** Two pointers never hold the same block, and a held block is marked. */
  lemma PointersDiffer(d: Disk, first: nat, owner: map<nat, Ptr>, i: nat, s: nat, j: nat, t: nat)
    requires Owned(d, first, owner) && i < |d.inodes| && j < |d.inodes| && s < NSLOTS && t < NSLOTS
    requires SlotAt(d, first, i, s) == SlotAt(d, first, j, t) && SlotAt(d, first, i, s) != 0
    ensures i == j && s == t && SlotAt(d, first, i, s) < |d.used| && d.used[SlotAt(d, first, i, s)]
  {
    assert PtrOk(d, first, owner, i, s) && PtrOk(d, first, owner, j, t);
  }

  /** A data block is marked exactly when some pointer holds it. */
  lemma MarkedIsOwned(d: Disk, first: nat, owner: map<nat, Ptr>, b: nat)
    requires Owned(d, first, owner) && b < |d.used|
    ensures d.used[b] <==> b < first || b in owner
    ensures b in owner ==> exists i, s :: 0 <= i < |d.inodes| && 0 <= s < NSLOTS && SlotAt(d, first, i, s) == b
  {
    if b >= first { assert BlockOk(d, first, owner, 0, 0, b); }
  }

  // ---------------------------------------------------------------- one pointer changes

  /** Every pointer is as before, except that slot s of inode i now holds v. */
  ghost predicate SlotsBut(d: Disk, r: Disk, first: nat, i: nat, s: nat, v: nat) {
    && Shape(d, first) && Shape(r, first) && |r.inodes| == |d.inodes| && |r.used| == |d.used|
    && (forall j, t :: 0 <= j < |d.inodes| && 0 <= t < NSLOTS ==> SlotBut(d, r, first, i, s, v, j, t))
  }

  predicate SlotBut(d: Disk, r: Disk, first: nat, i: nat, s: nat, v: nat, j: nat, t: nat)
    requires Shape(d, first) && Shape(r, first) && j < |d.inodes| == |r.inodes| && t < NSLOTS
  {
    SlotAt(r, first, j, t) == if j == i && t == s then v else SlotAt(d, first, j, t)
  }

  /** An empty pointer receives a free block. */
  lemma Grant(d: Disk, r: Disk, first: nat, owner: map<nat, Ptr>, i: nat, s: nat, b: nat)
    requires Owned(d, first, owner) && SlotsBut(d, r, first, i, s, b) && i < |d.inodes| && s < NSLOTS
    requires SlotAt(d, first, i, s) == 0 && first <= b < |d.used| && !d.used[b] && r.used == d.used[b := true]
    ensures Owned(r, first, owner[b := Ptr(i, s)])
  {
    var o := owner[b := Ptr(i, s)];
    assert BlockOk(d, first, owner, 0, 0, b);
    forall j, t | 0 <= j < |r.inodes| && 0 <= t < NSLOTS ensures PtrOk(r, first, o, j, t) {
      assert PtrOk(d, first, owner, j, t) && SlotBut(d, r, first, i, s, b, j, t);
    }
    forall c | first <= c < |r.used| ensures BlockOk(r, first, o, 0, 0, c) {
      assert BlockOk(d, first, owner, 0, 0, c);
      if c in o { assert SlotBut(d, r, first, i, s, b, o[c].inum, o[c].slot); }
    }
  }

  /** A pointer gives up its block. */
  lemma Revoke(d: Disk, r: Disk, first: nat, owner: map<nat, Ptr>, i: nat, s: nat, b: nat)
    requires Owned(d, first, owner) && SlotsBut(d, r, first, i, s, 0) && i < |d.inodes| && s < NSLOTS
    requires SlotAt(d, first, i, s) == b && b != 0 && b < |d.used| && r.used == d.used[b := false]
    ensures Owned(r, first, owner - {b}) && d.used[b]
  {
    var o := owner - {b};
    assert PtrOk(d, first, owner, i, s);
    forall j, t | 0 <= j < |r.inodes| && 0 <= t < NSLOTS ensures PtrOk(r, first, o, j, t) {
      assert PtrOk(d, first, owner, j, t) && SlotBut(d, r, first, i, s, 0, j, t);
    }
    forall c | first <= c < |r.used| ensures BlockOk(r, first, o, 0, 0, c) {
      assert BlockOk(d, first, owner, 0, 0, c);
      if c in o { assert SlotBut(d, r, first, i, s, 0, o[c].inum, o[c].slot); }
    }
  }

  function Grab(d: Disk, b: nat): Disk
    requires b < |d.used| == |d.blocks|
  {
    d.(used := d.used[b := true], blocks := d.blocks[b := Zero()])
  }

  function SetAddr(d: Disk, i: nat, s: nat, b: nat): Disk
    requires i < |d.inodes| && s < |d.inodes[i].addrs|
  {
    d.(inodes := d.inodes[i := d.inodes[i].(addrs := d.inodes[i].addrs[s := b])])
  }

  function SetEntry(d: Disk, root: nat, e: nat, b: nat): Disk
    requires root < |d.blocks| && e < NINDIRECT && b < 0x1_0000_0000
  {
    d.(blocks := d.blocks[root := SetWord(d.blocks[root], e, b)])
  }

  /** A block that no pointer holds does not matter to any pointer. */
  lemma UnheldBlock(d: Disk, first: nat, owner: map<nat, Ptr>, b: nat, j: nat)
    requires Owned(d, first, owner) && first <= b < |d.used| && !d.used[b] && j < |d.inodes|
    ensures d.inodes[j].addrs[ROOT] != b
  {
    assert PtrOk(d, first, owner, j, ROOT);
  }

  lemma GrantDirect(d: Disk, first: nat, owner: map<nat, Ptr>, i: nat, s: nat, b: nat)
    requires Owned(d, first, owner) && i < |d.inodes| && s <= NDIRECT && d.inodes[i].addrs[s] == 0
    requires first <= b < |d.used| && !d.used[b]
    ensures var r := SetAddr(Grab(d, b), i, s, b);
      SlotsBut(d, r, first, i, s, b) && Owned(r, first, owner[b := Ptr(i, s)])
  {
    var r := SetAddr(Grab(d, b), i, s, b);
    forall j, t | 0 <= j < |d.inodes| && 0 <= t < NSLOTS
      ensures SlotBut(d, r, first, i, s, b, j, t)
    {
      UnheldBlock(d, first, owner, b, j);
      if t > NDIRECT { ZeroWords(t - NDIRECT - 1); }
    }
    Grant(d, r, first, owner, i, s, b);
  }

  lemma GrantEntry(d: Disk, first: nat, owner: map<nat, Ptr>, i: nat, e: nat, b: nat)
    requires Owned(d, first, owner) && i < |d.inodes| && e < NINDIRECT && d.inodes[i].addrs[ROOT] != 0
    requires SlotAt(d, first, i, NDIRECT + 1 + e) == 0 && first <= b < |d.used| && !d.used[b]
    ensures var r := SetEntry(Grab(d, b), d.inodes[i].addrs[ROOT], e, b);
      SlotsBut(d, r, first, i, NDIRECT + 1 + e, b) && Owned(r, first, owner[b := Ptr(i, NDIRECT + 1 + e)])
  {
    var root := d.inodes[i].addrs[ROOT];
    var r := SetEntry(Grab(d, b), root, e, b);
    UnheldBlock(d, first, owner, b, i);
    var s := NDIRECT + 1 + e;
    forall j, t | 0 <= j < |d.inodes| && 0 <= t < NSLOTS ensures SlotBut(d, r, first, i, s, b, j, t)
    {
      UnheldBlock(d, first, owner, b, j);
      if t > NDIRECT { SetGet(d.blocks[root], e, b, t - NDIRECT - 1); }
      if j != i && d.inodes[j].addrs[ROOT] == root { PointersDiffer(d, first, owner, i, ROOT, j, ROOT); }
    }
    Grant(d, r, first, owner, i, NDIRECT + 1 + e, b);
  }

  // ---------------------------------------------------------------- freeing

  function Drop(d: Disk, b: nat): Disk
    requires b < |d.used|
  {
    d.(used := d.used[b := false])
  }

  /** itrunc frees a direct block. */
  lemma RevokeDirect(d: Disk, first: nat, owner: map<nat, Ptr>, i: nat, s: nat, b: nat)
    requires Owned(d, first, owner) && i < |d.inodes| && s < NDIRECT && b == d.inodes[i].addrs[s] && b != 0
    ensures b < |d.used| && d.used[b] && b in owner && owner[b] == Ptr(i, s)
    ensures var r := SetAddr(Drop(d, b), i, s, 0); Owned(r, first, owner - {b}) && SlotsBut(d, r, first, i, s, 0)
  {
    assert PtrOk(d, first, owner, i, s);
    var r := SetAddr(Drop(d, b), i, s, 0);
    forall j, t | 0 <= j < |d.inodes| && 0 <= t < NSLOTS ensures SlotBut(d, r, first, i, s, 0, j, t) {}
    Revoke(d, r, first, owner, i, s, b);
  }

  /** itrunc frees the j-th entry of an indirect block, leaving the entry in place. */
  lemma RevokeEntry(d: Disk, r: Disk, first: nat, owner: map<nat, Ptr>, o: map<nat, Ptr>, i: nat, j: nat, b: nat)
    requires OwnedBut(d, first, owner, i, j) && i < |d.inodes| && j < NINDIRECT && b == SlotAt(d, first, i, NDIRECT + 1 + j)
    requires b < |d.used| && (if b == 0 then r == d && o == owner else r == Drop(d, b) && o == owner - {b})
    ensures OwnedBut(r, first, o, i, j + 1)
  {
    assert PtrOk(d, first, owner, i, NDIRECT + 1 + j);
    var next := j + 1;
    forall k, t | 0 <= k < |r.inodes| && 0 <= t < NSLOTS && !Gone(k, t, i, next) ensures PtrOk(r, first, o, k, t) {
      assert PtrOk(d, first, owner, k, t);
    }
    forall c | first <= c < |r.used| ensures BlockOk(r, first, o, i, next, c) {
      assert BlockOk(d, first, owner, i, j, c);
    }
  }

  /** itrunc frees the indirect block itself once its entries are gone. */
  lemma RevokeRoot(d: Disk, first: nat, owner: map<nat, Ptr>, i: nat, b: nat)
    requires OwnedBut(d, first, owner, i, NINDIRECT) && i < |d.inodes| && b == d.inodes[i].addrs[ROOT] && b != 0
    ensures b < |d.used| && d.used[b] && b in owner && owner[b] == Ptr(i, ROOT)
    ensures var r := SetAddr(Drop(d, b), i, ROOT, 0); Owned(r, first, owner - {b})
  {
    assert PtrOk(d, first, owner, i, ROOT);
    var r, o := SetAddr(Drop(d, b), i, ROOT, 0), owner - {b};
    forall k, t | 0 <= k < |r.inodes| && 0 <= t < NSLOTS ensures PtrOk(r, first, o, k, t) {
      if !Gone(k, t, i, NINDIRECT) { assert PtrOk(d, first, owner, k, t); }
    }
    forall c | first <= c < |r.used| ensures BlockOk(r, first, o, 0, 0, c) {
      assert BlockOk(d, first, owner, i, NINDIRECT, c);
    }
  }
}
