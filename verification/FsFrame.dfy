/** What a change of one block or one pointer does to the other files (fs.c). */
module FsFrame {
  import opened Fs

  /** Two states of the same file system. */
  predicate Like(d: Disk, r: Disk, first: nat) {
    Shape(d, first) && Shape(r, first) && |r.inodes| == |d.inodes| && |r.blocks| == |d.blocks|
  }

  /** Block bn of file j is the same block with the same contents, or absent in both. */
  predicate BlockSame(d: Disk, r: Disk, first: nat, j: nat, bn: nat)
    requires Like(d, r, first) && j < |d.inodes| && bn < MAXFILE
  {
    var b := SlotAt(d, first, j, SlotFor(bn));
    SlotAt(r, first, j, SlotFor(bn)) == b && (0 < b < |d.blocks| ==> r.blocks[b] == d.blocks[b])
  }

  ghost predicate FileSame(d: Disk, r: Disk, first: nat, j: nat)
    requires Like(d, r, first) && j < |d.inodes|
  {
    r.inodes[j] == d.inodes[j] && forall bn :: 0 <= bn < MAXFILE ==> BlockSame(d, r, first, j, bn)
  }

  ghost predicate OthersSame(d: Disk, r: Disk, first: nat, i: nat)
    requires Like(d, r, first)
  {
    forall j :: 0 <= j < |d.inodes| && j != i ==> FileSame(d, r, first, j)
  }

  lemma OthersTrans(d: Disk, r: Disk, t: Disk, first: nat, i: nat)
    requires Like(d, r, first) && Like(r, t, first) && OthersSame(d, r, first, i) && OthersSame(r, t, first, i)
    ensures OthersSame(d, t, first, i)
  {
    forall j | 0 <= j < |d.inodes| && j != i ensures FileSame(d, t, first, j) {
      assert FileSame(d, r, first, j) && FileSame(r, t, first, j);
      forall bn | 0 <= bn < MAXFILE ensures BlockSame(d, t, first, j, bn) {
        assert BlockSame(d, r, first, j, bn) && BlockSame(r, t, first, j, bn);
      }
    }
  }

  /** Writing an unused block and the indirect block of inode i, while one slot of i changes from
      empty, leaves every other block of every file alone. */
  lemma GrantFrame(d: Disk, r: Disk, first: nat, owner: map<nat, Ptr>, i: nat, s: nat, b: nat, j: nat, bn: nat)
    requires Owned(d, first, owner) && SlotsBut(d, r, first, i, s, b) && i < |d.inodes| && s < NSLOTS
    requires first <= b < |d.used| && !d.used[b] && j < |d.inodes| && bn < MAXFILE && (j != i || SlotFor(bn) != s)
    requires forall c :: 0 <= c < |d.blocks| && c != b && r.blocks[c] != d.blocks[c] ==> c == d.inodes[i].addrs[ROOT] && c != 0
    ensures BlockSame(d, r, first, j, bn)
  {
    var t := SlotFor(bn);
    var c := SlotAt(d, first, j, t);
    assert SlotBut(d, r, first, i, s, b, j, t);
    assert PtrOk(d, first, owner, j, t) && PtrOk(d, first, owner, i, ROOT);
  }

  /** Overwriting a data block of file i: pointers stay, and so do all other blocks. */
  lemma PatchFrame(d: Disk, first: nat, owner: map<nat, Ptr>, i: nat, bn: nat, b: nat, data: Block)
    requires Owned(d, first, owner) && i < |d.inodes| && bn < MAXFILE && b == SlotAt(d, first, i, SlotFor(bn)) && b != 0
    ensures b < |d.blocks|
    ensures var r := d.(blocks := d.blocks[b := data]);
      && Owned(r, first, owner) && Like(d, r, first) && OthersSame(d, r, first, i)
      && (forall k :: 0 <= k < MAXFILE && k != bn ==> BlockSame(d, r, first, i, k))
      && (forall j, t :: 0 <= j < |d.inodes| && 0 <= t < NSLOTS ==> SlotAt(r, first, j, t) == SlotAt(d, first, j, t))
  {
    assert PtrOk(d, first, owner, i, SlotFor(bn));
    var r := d.(blocks := d.blocks[b := data]);
    forall j, t | 0 <= j < |d.inodes| && 0 <= t < NSLOTS ensures SlotAt(r, first, j, t) == SlotAt(d, first, j, t) {
      assert PtrOk(d, first, owner, j, ROOT);
    }
    forall j, t | 0 <= j < |d.inodes| && 0 <= t < NSLOTS ensures PtrOk(r, first, owner, j, t) {
      assert PtrOk(d, first, owner, j, t);
    }
    forall c | first <= c < |r.used| ensures BlockOk(r, first, owner, 0, 0, c) {
      assert BlockOk(d, first, owner, 0, 0, c);
    }
    forall j, k | 0 <= j < |d.inodes| && 0 <= k < MAXFILE && (j != i || k != bn) ensures BlockSame(d, r, first, j, k) {
      assert PtrOk(d, first, owner, j, SlotFor(k));
    }
  }

  // ---------------------------------------------------------------- sizes

  /** A file of cur bytes has exactly the blocks it needs. */
  ghost predicate Sized(d: Disk, first: nat, i: nat, cur: nat)
    requires Shape(d, first) && i < |d.inodes|
  {
    && cur <= MAXFILE * BSIZE && (SlotAt(d, first, i, ROOT) != 0 <==> NDIRECT * BSIZE < cur)
    && (forall bn :: 0 <= bn < MAXFILE ==> Present(d, first, i, bn, cur))
  }

  predicate Present(d: Disk, first: nat, i: nat, bn: nat, cur: nat)
    requires Shape(d, first) && i < |d.inodes| && bn < MAXFILE
  {
    SlotAt(d, first, i, SlotFor(bn)) != 0 <==> bn * BSIZE < cur
  }

  /** Byte x of file i. */
  function FileByte(d: Disk, first: nat, i: nat, x: nat): byte
    requires Shape(d, first) && i < |d.inodes| && x < MAXFILE * BSIZE
  {
    var b := SlotAt(d, first, i, SlotFor(x / BSIZE));
    if b < |d.blocks| then d.blocks[b][x % BSIZE] else 0
  }

  /** A file's contents, of the size its inode records. */
  ghost function Contents(d: Disk, first: nat, i: nat): seq<byte>
    requires Shape(d, first) && i < |d.inodes| && d.inodes[i].size <= MAXFILE * BSIZE
  {
    seq(d.inodes[i].size, x requires 0 <= x < d.inodes[i].size => FileByte(d, first, i, x))
  }

  /** A file that is the same has the same size, blocks and bytes. */
  lemma SameContents(d: Disk, r: Disk, first: nat, j: nat)
    requires Like(d, r, first) && j < |d.inodes| && FileSame(d, r, first, j) && Sized(d, first, j, d.inodes[j].size)
    ensures Sized(r, first, j, r.inodes[j].size) && Contents(r, first, j) == Contents(d, first, j)
  {
    var n := d.inodes[j].size;
    forall bn | 0 <= bn < MAXFILE ensures Present(r, first, j, bn, n) {
      assert BlockSame(d, r, first, j, bn) && Present(d, first, j, bn, n);
    }
    forall x | 0 <= x < n ensures FileByte(r, first, j, x) == FileByte(d, first, j, x) {
      assert BlockSame(d, r, first, j, x / BSIZE) && Present(d, first, j, x / BSIZE, n);
    }
  }
}
