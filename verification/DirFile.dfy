/** Directories as files (fs.c, fs.h): a slot is sixteen bytes, a little-endian inode number and a
    name padded with zeros, and dirlookup and dirlink go through readi and writei. */
module DirFile {
  import opened Options
  import opened Fs
  import opened FsFrame
  import opened FsCode
  import D = Dir
  import DirCode

  const SLOT: nat := 16

  /** A name that fits a slot: no zero byte, and one byte a character. */
  predicate Plain(name: string) {
    |name| <= D.DIRSIZ && forall k :: 0 <= k < |name| ==> 0 < name[k] as int < 256
  }

  predicate PlainEntry(de: D.Dirent) { de.inum < 0x1_0000 && Plain(de.name) }

  /** strncpy into a slot's name. */
  function Padded(name: string): (b: seq<byte>)
    requires Plain(name)
    ensures |b| == D.DIRSIZ
  {
    seq(D.DIRSIZ, k requires 0 <= k < D.DIRSIZ => if k < |name| then name[k] as int else 0)
  }

  function Encode(de: D.Dirent): (b: seq<byte>)
    requires PlainEntry(de)
    ensures |b| == SLOT
  {
    [de.inum % 0x100, de.inum / 0x100] + Padded(de.name)
  }

  /** The characters before the first zero byte. */
  function Text(b: seq<byte>): string {
    if b == [] || b[0] == 0 then [] else [b[0] as char] + Text(b[1..])
  }

  function Decode(b: seq<byte>): D.Dirent
    requires |b| == SLOT
  {
    var low: int, high: int := b[0], b[1];
    D.Dirent(low + 0x100 * high, Text(b[2..]))
  }

  lemma {:induction false} TextIs(b: seq<byte>, name: string)
    requires |name| <= |b| && (forall k :: 0 <= k < |name| ==> 0 < name[k] as int < 256 && b[k] == name[k] as int)
    requires |name| < |b| ==> b[|name|] == 0
    ensures Text(b) == name
    decreases |name|
  {
    if name != [] { TextIs(b[1..], name[1..]); }
  }

  /** Reading a slot gives back what was written to it. */
  lemma SlotRoundTrip(de: D.Dirent)
    requires PlainEntry(de)
    ensures Decode(Encode(de)) == de
  {
    var b := Encode(de);
    assert b[2..] == Padded(de.name);
    TextIs(Padded(de.name), de.name);
  }

  function Zeros(): seq<byte> { seq(SLOT, _ => 0) }

  lemma ZeroSlot()
    ensures Decode(Zeros()) == D.Dirent(0, "")
  {
  }

  /** The slots of a directory with the given contents. */
  function Entries(c: seq<byte>): (e: seq<D.Dirent>)
    ensures |e| == |c| / SLOT
  {
    seq(|c| / SLOT, k requires 0 <= k < |c| / SLOT => Decode(c[k * SLOT..k * SLOT + SLOT]))
  }

  lemma SlotIs(c: seq<byte>, k: nat)
    requires k < |c| / SLOT
    ensures k * SLOT + SLOT <= |c| && Entries(c)[k] == Decode(c[k * SLOT..k * SLOT + SLOT])
  {
  }

  /** Overwriting or appending a slot. */
  lemma PutSlot(c: seq<byte>, k: nat, b: seq<byte>)
    requires |c| % SLOT == 0 && k * SLOT <= |c| && |b| == SLOT
    ensures |Overlay(c, k * SLOT, b)| % SLOT == 0 && k <= |Entries(c)|
    ensures Entries(Overlay(c, k * SLOT, b)) == D.Put(Entries(c), k, Decode(b))
  {
    var r := Overlay(c, k * SLOT, b);
    assert |r| == if k * SLOT < |c| then |c| else |c| + SLOT;
    var e, q := Entries(c), Entries(r);
    forall j | 0 <= j < |q| ensures q[j] == D.Put(e, k, Decode(b))[j] {
      SlotIs(r, j);
      if j == k {
        assert r[j * SLOT..j * SLOT + SLOT] == b;
      } else {
        SlotIs(c, j);
        assert r[j * SLOT..j * SLOT + SLOT] == c[j * SLOT..j * SLOT + SLOT];
      }
    }
  }

  // ---------------------------------------------------------------- directory operations on files

  const T_DIR: int := 1

  /** Inode i is a directory made of whole slots. */
  ghost predicate IsDirectory(fs: FileSystem, i: nat)
    reads fs
  {
    fs.Valid() && i < |fs.d.inodes| && fs.d.inodes[i].kind == T_DIR && fs.d.inodes[i].size % SLOT == 0
  }

  /** Its slots. */
  ghost function Slots(fs: FileSystem, i: nat): seq<D.Dirent>
    requires IsDirectory(fs, i)
    reads fs
  {
    Entries(Contents(fs.d, fs.first, i))
  }

  /** readi of one slot. */
  method ReadSlot(fs: FileSystem, i: nat, k: nat) returns (de: D.Dirent)
    requires IsDirectory(fs, i) && k * SLOT < fs.d.inodes[i].size
    modifies fs`d, fs`owner
    ensures IsDirectory(fs, i) && fs.d == old(fs.d) && k < |Slots(fs, i)| && de == Slots(fs, i)[k]
  {
    assert Sized(fs.d, fs.first, i, fs.d.inodes[i].size);
    var n, b := fs.Readi(i, k * SLOT, SLOT);
    SlotIs(Contents(fs.d, fs.first, i), k);
    de := Decode(b);
  }

  /** The loop of dirlookup and the search of dirlink read the slots in turn; the offset after the
      last is the size. */
  lemma SlotCount(fs: FileSystem, i: nat)
    requires IsDirectory(fs, i)
    ensures fs.d.inodes[i].size == |Slots(fs, i)| * SLOT
  {
    assert Sized(fs.d, fs.first, i, fs.d.inodes[i].size);
  }

  lemma AbsentNext(e: seq<D.Dirent>, k: nat, name: string)
    requires k < |e| && D.Absent(e[..k], name) && (e[k].inum == 0 || e[k].name != name)
    ensures D.Absent(e[..k + 1], name)
  {
    assert e[..k + 1] == e[..k] + [e[k]];
  }

  /** dirlookup: the first slot in use with the name. */
  method Dirlookup(fs: FileSystem, i: nat, name: string) returns (r: Option<nat>)
    requires IsDirectory(fs, i)
    modifies fs`d, fs`owner
    ensures IsDirectory(fs, i) && fs.d == old(fs.d)
    ensures var e := Slots(fs, i);
      && (r.Some? ==> r.value < |e| && e[r.value].inum != 0 && e[r.value].name == name && D.Absent(e[..r.value], name))
      && (r.None? <==> D.Absent(e, name))
  {
    ghost var e := Slots(fs, i);
    var size := fs.d.inodes[i].size;
    SlotCount(fs, i);
    var k := 0;
    while k * SLOT < size
      invariant IsDirectory(fs, i) && fs.d == old(fs.d) && k <= |e| && D.Absent(e[..k], name)
      decreases size - k * SLOT
    {
      var de := ReadSlot(fs, i, k);
      if de.inum != 0 && de.name == name {
        return Some(k);
      }
      AbsentNext(e, k, name);
      k := k + 1;
    }
    assert e[..k] == e;
    r := None;
  }

  datatype Linking = Linked | Exists | Panics

  /** writei of one slot, at the end of the directory at most. A false ok means that balloc found
      no free block; n is as writei returns it. */
  method WriteSlot(fs: FileSystem, i: nat, k: nat, b: seq<byte>) returns (ok: bool, n: int)
    requires IsDirectory(fs, i) && k <= |Slots(fs, i)| && |b| == SLOT
    modifies fs
    ensures !ok ==> forall c :: 0 <= c < |fs.d.used| ==> fs.d.used[c]
    ensures ok ==> IsDirectory(fs, i) && Like(old(fs.d), fs.d, fs.first) && OthersSame(old(fs.d), fs.d, fs.first, i)
    ensures ok ==> n == if k < DirCode.MAXSLOTS then SLOT else -1
    ensures ok && n == -1 ==> fs.d == old(fs.d)
    ensures ok && n != -1 ==> Slots(fs, i) == D.Put(old(Slots(fs, i)), k, Decode(b))
    ensures k < |old(Slots(fs, i))| ==> ok
  {
    SlotCount(fs, i);
    assert Sized(fs.d, fs.first, i, fs.d.inodes[i].size);
    PutSlot(Contents(fs.d, fs.first, i), k, b);
    ok, n := fs.Writei(i, b, k * SLOT);
  }

  /** k is the first slot not in use, or the number of slots. */
  predicate FirstEmpty(e: seq<D.Dirent>, k: nat) {
    k <= |e| && (forall j :: 0 <= j < k ==> e[j].inum != 0) && (k < |e| ==> e[k].inum == 0)
  }

  /** dirlink's search for an empty slot. */
  method FindEmpty(fs: FileSystem, i: nat) returns (k: nat)
    requires IsDirectory(fs, i)
    modifies fs`d, fs`owner
    ensures IsDirectory(fs, i) && fs.d == old(fs.d) && FirstEmpty(Slots(fs, i), k)
  {
    ghost var e := Slots(fs, i);
    var size := fs.d.inodes[i].size;
    SlotCount(fs, i);
    k := 0;
    while k * SLOT < size
      invariant IsDirectory(fs, i) && fs.d == old(fs.d) && k <= |e| && forall j :: 0 <= j < k ==> e[j].inum != 0
      decreases size - k * SLOT
    {
      var de := ReadSlot(fs, i, k);
      if de.inum == 0 {
        return;
      }
      k := k + 1;
    }
  }

  /** dirlink on the file: the same as Dir says of its slots. */
  method Dirlink(fs: FileSystem, i: nat, name: string, inum: nat) returns (ok: bool, r: Linking, ghost k: nat)
    requires IsDirectory(fs, i) && inum != 0 && PlainEntry(D.Dirent(inum, name))
    modifies fs
    ensures !ok ==> forall c :: 0 <= c < |fs.d.used| ==> fs.d.used[c]
    ensures ok ==> IsDirectory(fs, i) && Like(old(fs.d), fs.d, fs.first) && OthersSame(old(fs.d), fs.d, fs.first, i)
    ensures ok ==> FirstEmpty(old(Slots(fs, i)), k) && (r.Exists? <==> !D.Absent(old(Slots(fs, i)), name))
    ensures ok ==> (r.Panics? <==> D.Absent(old(Slots(fs, i)), name) && k >= DirCode.MAXSLOTS)
    ensures ok ==> Slots(fs, i) == if r.Linked? then D.Put(old(Slots(fs, i)), k, D.Dirent(inum, name)) else old(Slots(fs, i))
  {
    var found := Dirlookup(fs, i, name);
    var off := FindEmpty(fs, i);
    k := off;
    if found.Some? {
      return true, Exists, k;
    }
    var de := D.Dirent(inum, name);
    SlotRoundTrip(de);
    var n;
    ok, n := WriteSlot(fs, i, off, Encode(de));
    r := if n == SLOT then Linked else Panics;
  }

  /** sys_unlink's write of zeros over a slot, which is there already and so needs no block. */
  method ClearSlot(fs: FileSystem, i: nat, k: nat) returns (ok: bool)
    requires IsDirectory(fs, i) && k < |Slots(fs, i)|
    modifies fs
    ensures ok && IsDirectory(fs, i) && Like(old(fs.d), fs.d, fs.first) && OthersSame(old(fs.d), fs.d, fs.first, i)
    ensures Slots(fs, i) == old(Slots(fs, i))[k := D.Dirent(0, "")]
  {
    ZeroSlot();
    SlotCount(fs, i);
    assert Sized(fs.d, fs.first, i, fs.d.inodes[i].size);
    var n;
    ok, n := WriteSlot(fs, i, k, Zeros());
    ok := ok && n == SLOT;
  }
}
