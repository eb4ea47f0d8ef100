/** The buffer cache (bio.c): buffers on a circular doubly linked list in order of recent use,
    with links by index, the list head being index |bufs|. */
module Bio {
  import opened Options

  const NODEV: nat := 0xffff_ffff

  datatype Key = Key(dev: nat, blockno: nat)

  datatype Buf<D> = Buf(key: Key, busy: bool, valid: bool, dirty: bool, data: D)

  // ---------------------------------------------------------------- the linked list

  datatype Ring = Ring(next: seq<nat>, prev: seq<nat>)

  function Succ(i: nat, len: nat): nat { if i + 1 < len then i + 1 else 0 }

  /** No node occurs twice. */
  predicate NoDup(cyc: seq<nat>) {
    forall i, j :: 0 <= i < j < |cyc| ==> cyc[i] != cyc[j]
  }

  predicate LinkAt(r: Ring, cyc: seq<nat>, i: nat)
    requires i < |cyc|
  {
    var a, b := cyc[i], cyc[Succ(i, |cyc|)];
    a < |r.next| && b < |r.prev| && r.next[a] == b && r.prev[b] == a
  }

  /** The links, followed from the head cyc[0], give the rest of cyc in order and lead back. */
  predicate Linked(r: Ring, cyc: seq<nat>) {
    |r.next| == |r.prev| && |cyc| > 0 && NoDup(cyc) && forall i :: 0 <= i < |cyc| ==> LinkAt(r, cyc, i)
  }

  function Without(cyc: seq<nat>, i: nat): seq<nat>
    requires i < |cyc|
  {
    cyc[..i] + cyc[i + 1..]
  }

  function Pushed(cyc: seq<nat>, b: nat): seq<nat>
    requires |cyc| > 0
  {
    [cyc[0], b] + cyc[1..]
  }

  function Unlink(r: Ring, b: nat): Ring
    requires b < |r.next| == |r.prev| && r.next[b] < |r.prev| && r.prev[b] < |r.next|
  {
    Ring(r.next[r.prev[b] := r.next[b]], r.prev[r.next[b] := r.prev[b]])
  }

  function PushFront(r: Ring, head: nat, b: nat): Ring
    requires b < |r.next| == |r.prev| && head < |r.next| && r.next[head] < |r.prev|
  {
    Ring(r.next[b := r.next[head]][head := b], r.prev[b := head][r.next[head] := b])
  }

  lemma UnlinkLinked(r: Ring, cyc: seq<nat>, i: nat)
    requires Linked(r, cyc) && 0 < i < |cyc|
    ensures LinkAt(r, cyc, i) && LinkAt(r, cyc, i - 1) && Linked(Unlink(r, cyc[i]), Without(cyc, i))
  {
    var c := Without(cyc, i);
    assert LinkAt(r, cyc, i) && LinkAt(r, cyc, i - 1);
    var q := Unlink(r, cyc[i]);
    forall j | 0 <= j < |c| ensures LinkAt(q, c, j) {
      var k := if j < i then j else j + 1;
      assert LinkAt(r, cyc, k);
    }
  }

  lemma PushLinked(r: Ring, cyc: seq<nat>, b: nat)
    requires Linked(r, cyc) && b < |r.next| && b !in cyc
    ensures LinkAt(r, cyc, 0) && Linked(PushFront(r, cyc[0], b), Pushed(cyc, b))
  {
    var c := Pushed(cyc, b);
    assert LinkAt(r, cyc, 0);
    var q := PushFront(r, cyc[0], b);
    forall j | 0 <= j < |c| ensures LinkAt(q, c, j) {
      if j > 0 { assert LinkAt(r, cyc, j - 1); }
    }
  }

  /** brelse()'s six assignments. */
  method MoveFront(r: Ring, head: nat, b: nat) returns (q: Ring)
    requires b < |r.next| == |r.prev| && head < |r.next| && b != head
    requires r.next[b] < |r.prev| && r.prev[b] < |r.next| && r.next[b] != b && r.prev[b] != b
    requires Unlink(r, b).next[head] < |r.prev|
    ensures q == PushFront(Unlink(r, b), head, b)
  {
    var next, prev := r.next, r.prev;
    prev := prev[next[b] := prev[b]];
    next := next[prev[b] := next[b]];
    next := next[b := next[head]];
    prev := prev[b := head];
    prev := prev[next[head] := b];
    next := next[head := b];
    q := Ring(next, prev);
  }

  /** The links after binit() has pushed buffers 0 .. k - 1, head being index n. */
  predicate Pushing(r: Ring, n: nat, k: nat) {
    && |r.next| == |r.prev| == n + 1 && k <= n
    && r.next[n] == (if k > 0 then k - 1 else n) && r.prev[n] == (if k > 0 then 0 else n)
    && (forall b :: 0 <= b < k ==> r.next[b] == if b > 0 then b - 1 else n)
    && (forall b :: 0 <= b < k ==> r.prev[b] == if b + 1 < k then b + 1 else n)
  }

  /** binit()'s loop: the list ends up holding every buffer once, the last one first. */
  method Binit(n: nat) returns (r: Ring)
    ensures |r.next| == n + 1 && Linked(r, InitialOrder(n))
  {
    var next: seq<nat>, prev: seq<nat> := seq(n + 1, _ => n), seq(n + 1, _ => n);
    var k := 0;
    while k < n
      invariant 0 <= k <= n && Pushing(Ring(next, prev), n, k)
    {
      next := next[k := next[n]];
      prev := prev[k := n];
      prev := prev[next[n] := k];
      next := next[n := k];
      k := k + 1;
    }
    r := Ring(next, prev);
    ghost var c := InitialOrder(n);
    forall i | 0 <= i < |c| ensures LinkAt(r, c, i) {}
  }

  function InitialOrder(n: nat): seq<nat> {
    seq(n + 1, i requires 0 <= i <= n => n - i)
  }

  /** The list holds every buffer once, after the head, which is index n. */
  predicate Holds(cyc: seq<nat>, n: nat) {
    && |cyc| == n + 1 && cyc[0] == n && NoDup(cyc)
    && (forall i :: 0 < i < |cyc| ==> cyc[i] < n) && (forall b :: 0 <= b < n ==> b in cyc)
  }

  lemma PlaceOf(cyc: seq<nat>, n: nat, b: nat) returns (j: nat)
    requires Holds(cyc, n) && b < n
    ensures 0 < j < |cyc| && cyc[j] == b
  {
    assert b in cyc;
    j :| 0 <= j < |cyc| && cyc[j] == b;
  }

  /** The order after the node in place i has moved to the front. */
  function ToFront(cyc: seq<nat>, i: nat): seq<nat>
    requires 0 < i < |cyc|
  {
    Pushed(Without(cyc, i), cyc[i])
  }

  lemma ToFrontHolds(cyc: seq<nat>, n: nat, i: nat)
    requires Holds(cyc, n) && 0 < i < |cyc|
    ensures Holds(ToFront(cyc, i), n) && cyc[i] !in Without(cyc, i)
  {
    var c := ToFront(cyc, i);
    forall b | 0 <= b < n ensures b in c {
      var j := PlaceOf(cyc, n, b);
      assert c[if j == i then 1 else if j < i then j + 1 else j] == b;
    }
  }

  // ---------------------------------------------------------------- contents

  /** At most one buffer per block of a real device: `where` says which. */
  ghost predicate Unique<D>(bufs: seq<Buf<D>>, where: map<Key, nat>) {
    forall b :: 0 <= b < |bufs| && bufs[b].key.dev != NODEV ==> bufs[b].key in where && where[bufs[b].key] == b
  }

  predicate Idle<D>(buf: Buf<D>) { !buf.busy && !buf.dirty }

  /** Buffers cache blocks of the disk, and an idle, clean, valid buffer equals its block. */
  ghost predicate Agrees<D>(bufs: seq<Buf<D>>, disk: map<Key, D>) {
    forall b :: 0 <= b < |bufs| && bufs[b].key.dev != NODEV ==>
      && bufs[b].key in disk && (Idle(bufs[b]) && bufs[b].valid ==> bufs[b].data == disk[bufs[b].key])
      && (bufs[b].dirty && !bufs[b].busy ==> bufs[b].valid)
  }

  /** What bread() of a block yields: the cached contents if there are any, else the disk's. */
  ghost function View<D>(bufs: seq<Buf<D>>, where: map<Key, nat>, disk: map<Key, D>, k: Key): D
    requires k in disk
  {
    if k in where && where[k] < |bufs| && bufs[where[k]].key == k && bufs[where[k]].valid
    then bufs[where[k]].data else disk[k]
  }

  /** Recycling an idle buffer for an uncached block changes no block's contents. */
  lemma RecycleKeepsView<D>(bufs: seq<Buf<D>>, where: map<Key, nat>, disk: map<Key, D>, v: nat, key: Key, k: Key)
    requires Unique(bufs, where) && Agrees(bufs, disk) && v < |bufs| && Idle(bufs[v])
    requires key.dev != NODEV && (forall b :: 0 <= b < |bufs| ==> bufs[b].key != key) && k in disk && k.dev != NODEV
    ensures View(bufs[v := Buf(key, true, false, false, bufs[v].data)], where[key := v], disk, k) == View(bufs, where, disk, k)
  {
  }

  datatype Outcome = Got(b: nat) | Sleeps(b: nat) | NoBuffers

  class BufferCache<D> {
    var bufs: seq<Buf<D>>
    var ring: Ring
    var disk: map<Key, D>
    ghost var cyc: seq<nat>
    ghost var where: map<Key, nat>

    ghost predicate Valid()
      reads this
    {
      && Linked(ring, cyc) && Holds(cyc, |bufs|) && |ring.next| == |bufs| + 1
      && Unique(bufs, where) && Agrees(bufs, disk)
    }

    /** binit: no buffer holds a block of a real device yet. */
    constructor (n: nat, blank: D, disk: map<Key, D>)
      ensures Valid() && |bufs| == n && this.disk == disk
      ensures forall b :: 0 <= b < n ==> bufs[b] == Buf(Key(NODEV, 0), false, false, false, blank)
    {
      var links := Binit(n);
      bufs := seq(n, _ => Buf(Key(NODEV, 0), false, false, false, blank));
      ring := links;
      this.disk := disk;
      cyc, where := InitialOrder(n), map[];
      new;
      forall b | 0 <= b < n ensures b in cyc {
        assert cyc[n - b] == b;
      }
    }

    /** The holder changes the data. */
    method Modify(b: nat, data: D)
      requires Valid() && b < |bufs| && bufs[b].busy
      modifies this
      ensures Valid() && disk == old(disk) && cyc == old(cyc) && where == old(where)
      ensures bufs == old(bufs)[b := old(bufs[b]).(data := data)]
    {
      bufs := bufs[b := bufs[b].(data := data)];
    }

    /** bget's first loop, in order of recent use. */
    method FindCached(key: Key) returns (r: Option<nat>)
      requires Valid()
      ensures r.Some? ==> r.value < |bufs| && bufs[r.value].key == key
      ensures r.None? ==> forall b :: 0 <= b < |bufs| ==> bufs[b].key != key
    {
      var head := |bufs|;
      assert LinkAt(ring, cyc, 0);
      var b := ring.next[head];
      ghost var i := Succ(0, |cyc|);
      while b != head
        invariant 0 <= i < |cyc| && b == cyc[i]
        invariant forall j :: 0 < j < (if i == 0 then |cyc| else i) ==> bufs[cyc[j]].key != key
        decreases if i == 0 then 0 else |cyc| - i
      {
        if bufs[b].key == key {
          return Some(b);
        }
        assert LinkAt(ring, cyc, i);
        b := ring.next[b];
        i := Succ(i, |cyc|);
      }
      forall c | 0 <= c < |bufs| ensures bufs[c].key != key {
        var j := PlaceOf(cyc, |bufs|, c);
      }
      r := None;
    }

    /** bget's second loop: the least recently used buffer that is neither busy nor dirty. */
    method FindVictim() returns (r: Option<nat>, ghost i: nat)
      requires Valid()
      ensures r.Some? ==> 0 < i < |cyc| && r.value == cyc[i] && Idle(bufs[r.value])
      ensures r.Some? ==> forall j :: i < j < |cyc| ==> !Idle(bufs[cyc[j]])
      ensures r.None? ==> forall b :: 0 <= b < |bufs| ==> !Idle(bufs[b])
    {
      var head := |bufs|;
      assert LinkAt(ring, cyc, |cyc| - 1);
      var b := ring.prev[head];
      i := |cyc| - 1;
      while b != head
        invariant 0 <= i < |cyc| && b == cyc[i]
        invariant forall j :: i < j < |cyc| ==> !Idle(bufs[cyc[j]])
        decreases i
      {
        if !bufs[b].busy && !bufs[b].dirty {
          return Some(b), i;
        }
        assert LinkAt(ring, cyc, i - 1);
        b := ring.prev[b];
        i := i - 1;
      }
      forall c | 0 <= c < |bufs| ensures !Idle(bufs[c]) {
        var j := PlaceOf(cyc, |bufs|, c);
      }
      r := None;
    }

    /** One pass of bget for a block of a real device. A free buffer of the block is taken; a
        busy one makes the caller sleep and start again; otherwise an idle buffer is recycled,
        never a busy or dirty one, and no block's contents change. */
    method Bget(key: Key) returns (r: Outcome)
      requires Valid() && key.dev != NODEV && key in disk
      modifies this
      ensures Valid() && disk == old(disk) && cyc == old(cyc) && |bufs| == |old(bufs)|
      ensures forall k :: k in disk && k.dev != NODEV ==> View(bufs, where, disk, k) == old(View(bufs, where, disk, k))
      ensures r.Got? ==> r.b < |bufs| && bufs[r.b].key == key && bufs[r.b].busy && !old(bufs[r.b]).busy
      ensures r.Got? && old(bufs[r.b]).key != key ==>
        !old(bufs[r.b]).dirty && bufs[r.b] == Buf(key, true, false, false, old(bufs[r.b]).data)
      ensures r.Got? && old(bufs[r.b]).key == key ==> bufs == old(bufs)[r.b := old(bufs[r.b]).(busy := true)]
      ensures r.Got? ==> forall b :: 0 <= b < |bufs| && b != r.b ==> bufs[b] == old(bufs[b])
      ensures !r.Got? ==> bufs == old(bufs)
      ensures r.Sleeps? ==> r.b < |bufs| && bufs[r.b].key == key && bufs[r.b].busy
      ensures r.NoBuffers? <==> forall b :: 0 <= b < |old(bufs)| ==> old(bufs[b]).key != key && !Idle(old(bufs[b]))
    {
      var hit := FindCached(key);
      if hit.Some? {
        var b := hit.value;
        if bufs[b].busy {
          return Sleeps(b);
        }
        bufs := bufs[b := bufs[b].(busy := true)];
        return Got(b);
      }
      var victim, i := FindVictim();
      if victim.None? {
        return NoBuffers;
      }
      var v := victim.value;
      forall k | k in disk && k.dev != NODEV
        ensures View(bufs[v := Buf(key, true, false, false, bufs[v].data)], where[key := v], disk, k) == View(bufs, where, disk, k)
      {
        RecycleKeepsView(bufs, where, disk, v, key, k);
      }
      bufs := bufs[v := Buf(key, true, false, false, bufs[v].data)];
      where := where[key := v];
      r := Got(v);
    }

    /** iderw, as a device that completes at once: writes a dirty buffer, reads an invalid one,
        and does nothing else (a buffer that is neither makes it panic). */
    method Iderw(b: nat) returns (ok: bool)
      requires Valid() && b < |bufs| && bufs[b].busy && bufs[b].key in disk
      modifies this
      ensures Valid() && cyc == old(cyc) && where == old(where)
      ensures ok <==> !old(bufs[b]).valid || old(bufs[b]).dirty
      ensures !ok ==> bufs == old(bufs) && disk == old(disk)
      ensures ok && old(bufs[b]).dirty ==>
        disk == old(disk)[bufs[b].key := old(bufs[b]).data] && bufs == old(bufs)[b := old(bufs[b]).(valid := true, dirty := false)]
      ensures ok && !old(bufs[b]).dirty ==>
        disk == old(disk) && bufs == old(bufs)[b := old(bufs[b]).(valid := true, data := old(disk[bufs[b].key]))]
    {
      var buf := bufs[b];
      if buf.valid && !buf.dirty {
        return false;
      }
      if buf.dirty {
        disk := disk[buf.key := buf.data];
        bufs := bufs[b := buf.(valid := true, dirty := false)];
      } else {
        bufs := bufs[b := buf.(valid := true, data := disk[buf.key])];
      }
      ok := true;
    }

    /** bread: the buffer comes back busy, valid and holding the block's current contents. */
    method Bread(key: Key) returns (r: Outcome)
      requires Valid() && key.dev != NODEV && key in disk
      modifies this
      ensures Valid() && disk == old(disk) && cyc == old(cyc) && |bufs| == |old(bufs)|
      ensures r.Got? ==> r.b < |bufs| && bufs[r.b].key == key && bufs[r.b].busy && bufs[r.b].valid
      ensures r.Got? ==> bufs[r.b].data == old(View(bufs, where, disk, key))
      ensures forall k :: k in disk && k.dev != NODEV ==> View(bufs, where, disk, k) == old(View(bufs, where, disk, k))
      ensures r.Got? ==> forall b :: 0 <= b < |bufs| && b != r.b ==> bufs[b] == old(bufs[b])
      ensures !r.Got? ==> bufs == old(bufs)
    {
      r := Bget(key);
      if r.Got? && !bufs[r.b].valid {
        var ok := Iderw(r.b);
      }
    }

    /** bwrite: marks the buffer dirty and has it written. */
    method Bwrite(b: nat) returns (ok: bool)
      requires Valid() && b < |bufs| && bufs[b].key in disk
      modifies this
      ensures Valid() && cyc == old(cyc) && where == old(where)
      ensures ok <==> old(bufs[b]).busy
      ensures !ok ==> bufs == old(bufs) && disk == old(disk)
      ensures ok ==> disk == old(disk)[bufs[b].key := old(bufs[b]).data]
      ensures ok ==> bufs == old(bufs)[b := old(bufs[b]).(valid := true, dirty := false)]
    {
      if !bufs[b].busy {
        return false;
      }
      bufs := bufs[b := bufs[b].(dirty := true)];
      ok := Iderw(b);
    }

    /** log_write's part: a held buffer is marked dirty and not written, so that it stays cached. */
    method Pin(b: nat)
      requires Valid() && b < |bufs| && bufs[b].busy && bufs[b].valid
      modifies this
      ensures Valid() && disk == old(disk) && cyc == old(cyc) && where == old(where)
      ensures bufs == old(bufs)[b := old(bufs[b]).(dirty := true)]
    {
      bufs := bufs[b := bufs[b].(dirty := true)];
    }

    /** brelse of a buffer whose changes, if any, were written or logged: it becomes the most
        recently used. */
    method Brelse(b: nat) returns (ok: bool)
      requires Valid() && b < |bufs|
      requires bufs[b].busy ==> bufs[b].valid && bufs[b].key.dev != NODEV && bufs[b].key in disk
      requires bufs[b].busy && !bufs[b].dirty ==> bufs[b].data == disk[bufs[b].key]
      modifies this
      ensures Valid() && disk == old(disk) && where == old(where)
      ensures ok <==> old(bufs[b]).busy
      ensures !ok ==> bufs == old(bufs) && cyc == old(cyc)
      ensures ok ==> bufs == old(bufs)[b := old(bufs[b]).(busy := false)]
      ensures ok ==> exists i :: 0 < i < |old(cyc)| && old(cyc)[i] == b && cyc == ToFront(old(cyc), i)
    {
      if !bufs[b].busy {
        return false;
      }
      ghost var i := PlaceOf(cyc, |bufs|, b);
      UnlinkLinked(ring, cyc, i);
      ToFrontHolds(cyc, |bufs|, i);
      PushLinked(Unlink(ring, b), Without(cyc, i), b);
      ring := MoveFront(ring, |bufs|, b);
      cyc := ToFront(cyc, i);
      bufs := bufs[b := bufs[b].(busy := false)];
      ok := true;
    }

    /** How the file system changes a block: bread, a change, log_write, brelse. The block reads as
        changed although the disk is not, no other block reads differently, and the buffer is left
        dirty and not busy, one that bget does not recycle. */
    method ChangeBlock(key: Key, data: D) returns (r: Outcome)
      requires Valid() && key.dev != NODEV && key in disk
      modifies this
      ensures Valid() && disk == old(disk)
      ensures r.Got? ==> r.b < |bufs| && bufs[r.b] == Buf(key, false, true, true, data) && !Idle(bufs[r.b])
      ensures forall k :: k in disk && k.dev != NODEV ==>
        View(bufs, where, disk, k) == if r.Got? && k == key then data else old(View(bufs, where, disk, k))
    {
      r := Bread(key);
      if r.Got? {
        ghost var was := bufs;
        Modify(r.b, data);
        Pin(r.b);
        var ok := Brelse(r.b);
        forall k | k in disk && k.dev != NODEV
          ensures View(bufs, where, disk, k) == if k == key then data else View(was, where, disk, k)
        {
          assert k == key ==> where[k] == r.b;
        }
      }
    }
  }
}
