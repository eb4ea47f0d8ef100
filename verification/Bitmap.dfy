/** The free-block bitmap as bytes (fs.c): one bit per disk block, BPB bits per bitmap block. */
module Bitmap {
  import opened Options

  const BPB: nat := 4096

  /** 1 << k. */
  function Mask(k: nat): bv8
    requires k < 8
  {
    match k
    case 0 => 0x01
    case 1 => 0x02
    case 2 => 0x04
    case 3 => 0x08
    case 4 => 0x10
    case 5 => 0x20
    case 6 => 0x40
    case 7 => 0x80
  }

  lemma MaskIsShift(k: nat)
    requires k < 8
    ensures Mask(k) == (1 as bv8) << k
  {
    match k
    case 0 => case 1 => case 2 => case 3 => case 4 => case 5 => case 6 => case 7 =>
  }

  /** balloc's marking of a byte sets one bit and no other. */
  lemma SetOne(x: bv8, k: nat, j: nat)
    requires k < 8 && j < 8
    ensures (x | Mask(k)) & Mask(j) != 0 <==> j == k || x & Mask(j) != 0
  {
  }

  /** bfree's clearing clears one bit and no other. */
  lemma ClearOne(x: bv8, k: nat, j: nat)
    requires k < 8 && j < 8
    ensures (x & !Mask(k)) & Mask(j) != 0 <==> j != k && x & Mask(j) != 0
  {
  }

  /** Block b is in use. */
  predicate Bit(bytes: seq<bv8>, b: nat)
    requires b < 8 * |bytes|
  {
    bytes[b / 8] & Mask(b % 8) != 0
  }

  /** balloc's search, one bitmap block at a time: the lowest clear bit below size. */
  method FindClear(bytes: seq<bv8>, size: nat) returns (r: Option<nat>)
    requires size <= 8 * |bytes|
    ensures r.Some? ==> r.value < size && !Bit(bytes, r.value) && (forall c :: 0 <= c < r.value ==> Bit(bytes, c))
    ensures r.None? ==> forall c :: 0 <= c < size ==> Bit(bytes, c)
  {
    var b := 0;
    while b < size
      invariant 0 <= b && forall c :: 0 <= c < b && c < size ==> Bit(bytes, c)
    {
      var bi := 0;
      while bi < BPB && b + bi < size
        invariant 0 <= bi <= BPB && b + bi <= size && forall c :: 0 <= c < b + bi ==> Bit(bytes, c)
      {
        if bytes[(b + bi) / 8] & Mask((b + bi) % 8) == 0 {
          return Some(b + bi);
        }
        bi := bi + 1;
      }
      b := b + BPB;
    }
    r := None;
  }

  /** Which blocks are in use. */
  function Bits(bytes: seq<bv8>): (used: seq<bool>)
    ensures |used| == 8 * |bytes| && forall b :: 0 <= b < |used| ==> used[b] == Bit(bytes, b)
  {
    seq(8 * |bytes|, b requires 0 <= b < 8 * |bytes| => Bit(bytes, b))
  }

  /** The eight bits of a byte. */
  function ByteBits(x: bv8): (bits: seq<bool>)
    ensures |bits| == 8 && forall k :: 0 <= k < 8 ==> bits[k] == (x & Mask(k) != 0)
  {
    seq(8, k requires 0 <= k < 8 => x & Mask(k) != 0)
  }

  lemma MarkedByte(x: bv8, k: nat)
    requires k < 8
    ensures ByteBits(x | Mask(k)) == ByteBits(x)[k := true]
  {
    var a, b := ByteBits(x | Mask(k)), ByteBits(x)[k := true];
    forall j | 0 <= j < 8 ensures a[j] == b[j] { SetOne(x, k, j); }
  }

  lemma ClearedByte(x: bv8, k: nat)
    requires k < 8
    ensures ByteBits(x & !Mask(k)) == ByteBits(x)[k := false]
  {
    var a, b := ByteBits(x & !Mask(k)), ByteBits(x)[k := false];
    forall j | 0 <= j < 8 ensures a[j] == b[j] { ClearOne(x, k, j); }
  }

  lemma BitsAt(bytes: seq<bv8>, j: nat, m: nat)
    requires j < |bytes| && m < 8
    ensures 8 * j + m < 8 * |bytes| && Bits(bytes)[8 * j + m] == ByteBits(bytes[j])[m]
  {
    assert (8 * j + m) / 8 == j && (8 * j + m) % 8 == m;
  }

  lemma OneBit(bytes: seq<bv8>, i: nat, k: nat, y: bv8, v: bool, j: nat, m: nat)
    requires i < |bytes| && k < 8 && ByteBits(y) == ByteBits(bytes[i])[k := v] && j < |bytes| && m < 8
    ensures 8 * j + m < 8 * |bytes|
    ensures Bits(bytes[i := y])[8 * j + m] == if j == i && m == k then v else Bits(bytes)[8 * j + m]
  {
    BitsAt(bytes, j, m);
    BitsAt(bytes[i := y], j, m);
  }

  lemma OneBitAt(bytes: seq<bv8>, i: nat, k: nat, y: bv8, v: bool, c: nat)
    requires i < |bytes| && k < 8 && ByteBits(y) == ByteBits(bytes[i])[k := v] && c < 8 * |bytes|
    ensures Bits(bytes[i := y])[c] == if c == 8 * i + k then v else Bits(bytes)[c]
  {
    var j, m := c / 8, c % 8;
    assert c == 8 * j + m;
    OneBit(bytes, i, k, y, v, j, m);
  }

  /** A byte in which one bit has changed changes that bit of the map. */
  lemma OneByte(bytes: seq<bv8>, i: nat, k: nat, y: bv8, v: bool)
    requires i < |bytes| && k < 8 && ByteBits(y) == ByteBits(bytes[i])[k := v]
    ensures 8 * i + k < 8 * |bytes| && Bits(bytes[i := y]) == Bits(bytes)[8 * i + k := v]
  {
    var before, after, b := Bits(bytes), Bits(bytes[i := y]), 8 * i + k;
    forall c | 0 <= c < 8 * |bytes| ensures after[c] == before[b := v][c] { OneBitAt(bytes, i, k, y, v, c); }
  }

  lemma MarkedBits(bytes: seq<bv8>, b: nat, i: nat, k: nat)
    requires i < |bytes| && k < 8 && b == 8 * i + k
    ensures Bits(bytes[i := bytes[i] | Mask(k)]) == Bits(bytes)[b := true]
  {
    MarkedByte(bytes[i], k);
    OneByte(bytes, i, k, bytes[i] | Mask(k), true);
  }

  lemma ClearedBits(bytes: seq<bv8>, b: nat, i: nat, k: nat)
    requires i < |bytes| && k < 8 && b == 8 * i + k
    ensures Bits(bytes[i := bytes[i] & !Mask(k)]) == Bits(bytes)[b := false]
  {
    ClearedByte(bytes[i], k);
    OneByte(bytes, i, k, bytes[i] & !Mask(k), false);
  }

  /** balloc on the bytes is the setting of one boolean, the lowest that is false. */
  method Mark(bytes: seq<bv8>, size: nat) returns (r: Option<nat>, after: seq<bv8>)
    requires size <= 8 * |bytes|
    ensures r.Some? ==> r.value < size && !Bits(bytes)[r.value] && Bits(after) == Bits(bytes)[r.value := true]
    ensures r.Some? ==> forall c :: 0 <= c < r.value ==> Bits(bytes)[c]
    ensures r.None? ==> after == bytes && forall c :: 0 <= c < size ==> Bits(bytes)[c]
  {
    r := FindClear(bytes, size);
    after := bytes;
    if r.Some? {
      var i, k := r.value / 8, r.value % 8;
      MarkedBits(bytes, r.value, i, k);
      after := bytes[i := bytes[i] | Mask(k)];
    }
  }

  /** bfree on the bytes is the clearing of one boolean, refused when it is false already. */
  method Clear(bytes: seq<bv8>, b: nat) returns (ok: bool, after: seq<bv8>)
    requires b < 8 * |bytes|
    ensures ok <==> Bits(bytes)[b]
    ensures Bits(after) == if ok then Bits(bytes)[b := false] else Bits(bytes)
  {
    var i, k := b / 8, b % 8;
    ok := bytes[i] & Mask(k) != 0;
    after := bytes;
    if ok {
      ClearedBits(bytes, b, i, k);
      after := bytes[i := bytes[i] & !Mask(k)];
    }
  }
}
