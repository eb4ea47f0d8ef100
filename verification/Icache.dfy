/** The inode cache (fs.c): iget, idup, ilock, iunlock and iput as steps of any number of threads,
    each working on references it holds. iput gives up the cache's lock while it frees an inode,
    so freeing is three steps. */
module Icache {
  import opened Options

  /** Device and inode number. */
  datatype Key = Key(dev: nat, inum: nat)

  /** What matters here of an inode: its type, 0 if it is free, and its links. */
  datatype Inode = Inode(kind: nat, nlink: nat)

  /** A cache entry; `busy` is I_BUSY together with the reference that set it. */
  datatype Entry = Entry(key: Key, ref: nat, busy: Option<nat>, valid: bool, ino: Inode)

  // ---------------------------------------------------------------- iget's search

  predicate Names(n: Entry, key: Key) { n.ref > 0 && n.key == key }

  function FindKey(t: seq<Entry>, key: Key, i: nat): (r: Option<nat>)
    requires i <= |t|
    ensures r.Some? ==> i <= r.value < |t| && Names(t[r.value], key)
    ensures r.None? ==> forall j :: i <= j < |t| ==> !Names(t[j], key)
    decreases |t| - i
  {
    if i == |t| then None else if Names(t[i], key) then Some(i) else FindKey(t, key, i + 1)
  }

  function FindEmpty(t: seq<Entry>, i: nat): (r: Option<nat>)
    requires i <= |t|
    ensures r.Some? ==> i <= r.value < |t| && t[r.value].ref == 0
    ensures r.None? ==> forall j :: i <= j < |t| ==> t[j].ref > 0
    decreases |t| - i
  {
    if i == |t| then None else if t[i].ref == 0 then Some(i) else FindEmpty(t, i + 1)
  }

  /** The entry iget takes: the one in use for the inode, else the first that is not in use. */
  function Slot(t: seq<Entry>, key: Key): (r: Option<nat>)
    ensures r.Some? ==> r.value < |t| && (t[r.value].ref > 0 ==> t[r.value].key == key)
    ensures r.Some? && t[r.value].ref == 0 ==> forall j :: 0 <= j < |t| ==> !Names(t[j], key)
    ensures r.None? ==> forall j :: 0 <= j < |t| ==> t[j].ref > 0 && t[j].key != key
  {
    var found := FindKey(t, key, 0);
    if found.Some? then found else FindEmpty(t, 0)
  }

  function Taken(t: seq<Entry>, e: nat, key: Key): seq<Entry>
    requires e < |t|
  {
    t[e := if t[e].ref > 0 then t[e].(ref := t[e].ref + 1) else Entry(key, 1, None, false, t[e].ino)]
  }

  /** iget; a result of None is its panic. */
  method Iget(t: seq<Entry>, key: Key) returns (r: Option<nat>, after: seq<Entry>)
    ensures r == Slot(t, key) && after == if r.Some? then Taken(t, r.value, key) else t
  {
    var empty: Option<nat> := None;
    var i := 0;
    while i < |t|
      invariant 0 <= i <= |t| && FindKey(t, key, 0) == FindKey(t, key, i)
      invariant FindEmpty(t, 0) == if empty.Some? then empty else FindEmpty(t, i)
    {
      if t[i].ref > 0 && t[i].key == key {
        return Some(i), t[i := t[i].(ref := t[i].ref + 1)];
      }
      if empty == None && t[i].ref == 0 {
        empty := Some(i);
      }
      i := i + 1;
    }
    if empty == None {
      return None, t;
    }
    return empty, t[empty.value := Entry(key, 1, None, false, t[empty.value].ino)];
  }

  // ---------------------------------------------------------------- the machine

  /** A reference is merely held, has the inode locked, or is in iput, before or after the disk's
      copy has been marked free. `touched` marks changes that iupdate has not yet copied. */
  datatype Phase = Held | Locked(touched: bool) | Freeing | Freed

  datatype Ref = Ref(e: nat, phase: Phase)

  datatype State = State(t: seq<Entry>, disk: map<Key, Inode>, refs: map<nat, Ref>)

  datatype Step =
    | Get(h: nat, key: Key)                // iget
    | Alloc(h: nat, key: Key, kind: nat)   // ialloc
    | Dup(h: nat, from: nat)               // idup
    | Lock(h: nat)                         // ilock
    | Set(h: nat, ino: Inode)              // a change to the locked copy
    | Update(h: nat)                       // iupdate
    | Unlock(h: nat)                       // iunlock
    | Put(h: nat)                          // iput, up to its decision
    | Free(h: nat)                         // itrunc and the iupdate that marks the inode free
    | Finish(h: nat)                       // the rest of iput

  ghost predicate In(s: State, h: nat) { h in s.refs && s.refs[h].e < |s.t| && s.t[s.refs[h].e].key in s.disk }

  ghost function At(s: State, h: nat): Entry
    requires In(s, h)
  {
    s.t[s.refs[h].e]
  }

  /** The disk's copy of the inode that h refers to. */
  ghost function OnDisk(s: State, h: nat): Inode
    requires In(s, h)
  {
    s.disk[At(s, h).key]
  }

  /** iput is the last to let go of an inode without links. */
  ghost predicate LastPut(s: State, h: nat)
    requires In(s, h)
  {
    At(s, h).ref == 1 && At(s, h).valid && At(s, h).ino.nlink == 0
  }

  ghost predicate CanTake(s: State, h: nat, key: Key) { h !in s.refs && key in s.disk && Slot(s.t, key).Some? }

  /** ilock panics for want of a type, and iput because the inode is busy: such steps are not
      enabled. */
  ghost predicate Enabled(s: State, step: Step) {
    match step
    case Get(h, key) => CanTake(s, h, key)
    case Alloc(h, key, kind) => CanTake(s, h, key) && s.disk[key].kind == 0 && kind > 0
    case Dup(h, from) => h !in s.refs && In(s, from) && (s.refs[from].phase.Held? || s.refs[from].phase.Locked?)
    case Lock(h) => In(s, h) && s.refs[h].phase.Held? && At(s, h).busy.None? && (At(s, h).valid || OnDisk(s, h).kind != 0)
    case Set(h, ino) => In(s, h) && s.refs[h].phase.Locked? && ino.kind > 0
    case Update(h) => In(s, h) && s.refs[h].phase.Locked?
    case Unlock(h) => In(s, h) && s.refs[h].phase == Locked(false)
    case Put(h) => In(s, h) && s.refs[h].phase.Held? && At(s, h).ref > 0 && (LastPut(s, h) ==> At(s, h).busy.None?)
    case Free(h) => In(s, h) && s.refs[h].phase.Freeing?
    case Finish(h) => In(s, h) && s.refs[h].phase.Freed? && At(s, h).ref > 0
  }

  ghost function Take(s: State, h: nat, key: Key): State
    requires CanTake(s, h, key)
  {
    s.(t := Taken(s.t, Slot(s.t, key).value, key), refs := s.refs[h := Ref(Slot(s.t, key).value, Held)])
  }

  /** The entry and the phase of h change. */
  ghost function Move(s: State, h: nat, n: Entry, phase: Phase): State
    requires In(s, h)
  {
    s.(t := s.t[s.refs[h].e := n], refs := s.refs[h := s.refs[h].(phase := phase)])
  }

  /** h is given up. */
  ghost function Drop(s: State, h: nat, n: Entry): State
    requires In(s, h)
  {
    s.(t := s.t[s.refs[h].e := n], refs := s.refs - {h})
  }

  ghost function Do(s: State, step: Step): State
    requires Enabled(s, step)
  {
    match step
    case Get(h, key) => Take(s, h, key)
    case Alloc(h, key, kind) => Take(s.(disk := s.disk[key := Inode(kind, 0)]), h, key)
    case Dup(h, from) =>
      s.(t := s.t[s.refs[from].e := At(s, from).(ref := At(s, from).ref + 1)], refs := s.refs[h := Ref(s.refs[from].e, Held)])
    case Lock(h) =>
      var n := At(s, h);
      Move(s, h, n.(busy := Some(h), valid := true, ino := if n.valid then n.ino else OnDisk(s, h)), Locked(false))
    case Set(h, ino) => Move(s, h, At(s, h).(ino := ino), Locked(true))
    case Update(h) => Move(s, h, At(s, h), Locked(false)).(disk := s.disk[At(s, h).key := At(s, h).ino])
    case Unlock(h) => Move(s, h, At(s, h).(busy := None), Held)
    case Put(h) =>
      if LastPut(s, h) then Move(s, h, At(s, h).(busy := Some(h)), Freeing)
      else Drop(s, h, At(s, h).(ref := At(s, h).ref - 1))
    case Free(h) =>
      var ino := At(s, h).ino.(kind := 0);
      Move(s, h, At(s, h).(ino := ino), Freed).(disk := s.disk[At(s, h).key := ino])
    case Finish(h) => Drop(s, h, At(s, h).(busy := None, valid := false, ref := At(s, h).ref - 1))
  }

  // ---------------------------------------------------------------- what every step keeps

  /** The references to entry e. */
  ghost function RefsTo(refs: map<nat, Ref>, e: nat): set<nat> {
    set h | h in refs && refs[h].e == e
  }

  lemma AddRef(refs: map<nat, Ref>, h: nat, r: Ref, e: nat)
    requires h !in refs
    ensures RefsTo(refs[h := r], e) == RefsTo(refs, e) + (if r.e == e then {h} else {}) && h !in RefsTo(refs, e)
  {
  }

  lemma SameRefs(refs: map<nat, Ref>, h: nat, r: Ref, e: nat)
    requires h in refs && r.e == refs[h].e
    ensures RefsTo(refs[h := r], e) == RefsTo(refs, e)
  {
  }

  lemma DropRef(refs: map<nat, Ref>, h: nat, e: nat)
    requires h in refs
    ensures RefsTo(refs - {h}, e) == RefsTo(refs, e) - (if refs[h].e == e then {h} else {})
    ensures refs[h].e == e ==> h in RefsTo(refs, e)
  {
  }

  /** The copy may differ from the disk: its holder is changing it, or has just freed it. */
  predicate Ahead(refs: map<nat, Ref>, n: Entry) {
    n.busy.Some? && n.busy.value in refs && (refs[n.busy.value].phase == Locked(true) || refs[n.busy.value].phase.Freed?)
  }

  predicate Gone(refs: map<nat, Ref>, n: Entry) {
    n.busy.Some? && n.busy.value in refs && refs[n.busy.value].phase.Freed?
  }

  /** The count is the number of references, I_BUSY belongs to one of them, a valid copy that nobody
      is changing is the disk's, and one that has not just been freed is in use. */
  ghost predicate EntryOk(s: State, e: nat)
    requires e < |s.t|
  {
    var n := s.t[e];
    && n.ref == |RefsTo(s.refs, e)| && (n.ref > 0 ==> n.key in s.disk)
    && (n.busy.Some? ==> n.busy.value in s.refs && s.refs[n.busy.value].e == e && !s.refs[n.busy.value].phase.Held?)
    && (n.ref > 0 && n.valid && !Ahead(s.refs, n) ==> n.ino == s.disk[n.key])
    && (n.ref > 0 && n.valid && !Gone(s.refs, n) ==> n.ino.kind > 0)
  }

  ghost predicate RefOk(s: State, h: nat)
    requires h in s.refs
  {
    && s.refs[h].e < |s.t|
    && var n := s.t[s.refs[h].e];
       && (!s.refs[h].phase.Held? ==> n.busy == Some(h))
       && (s.refs[h].phase.Locked? || s.refs[h].phase.Freeing? ==> n.valid)
       && (s.refs[h].phase.Freeing? ==> n.ino.nlink == 0)
  }

  /** No inode has two entries. */
  ghost predicate Unique(t: seq<Entry>) {
    forall a, b :: 0 <= a < b < |t| && t[a].ref > 0 && t[b].ref > 0 ==> t[a].key != t[b].key
  }

  ghost predicate Inv(s: State) {
    && Unique(s.t) && (forall e :: 0 <= e < |s.t| ==> EntryOk(s, e)) && (forall h :: h in s.refs ==> RefOk(s, h))
  }

  lemma RefIn(s: State, h: nat)
    requires Inv(s) && h in s.refs
    ensures In(s, h) && At(s, h).ref > 0 && h in RefsTo(s.refs, s.refs[h].e)
  {
    var e := s.refs[h].e;
    assert RefOk(s, h) && EntryOk(s, e);
    NotNone(RefsTo(s.refs, e), h);
  }

  lemma NotNone(a: set<nat>, h: nat)
    requires h in a
    ensures |a| > 0
  {
  }

  /** One more reference to an entry in use. */
  lemma CountUp(s: State, h: nat, x: nat)
    requires Inv(s) && h !in s.refs && x < |s.t| && s.t[x].ref > 0
    ensures Inv(s.(t := s.t[x := s.t[x].(ref := s.t[x].ref + 1)], refs := s.refs[h := Ref(x, Held)]))
  {
    var r := s.(t := s.t[x := s.t[x].(ref := s.t[x].ref + 1)], refs := s.refs[h := Ref(x, Held)]);
    forall e | 0 <= e < |r.t| ensures EntryOk(r, e) {
      assert EntryOk(s, e);
      AddRef(s.refs, h, Ref(x, Held), e);
    }
    forall k | k in r.refs ensures RefOk(r, k) {
      if k != h { assert RefOk(s, k); }
    }
  }

  /** An entry not in use is recycled. */
  lemma Recycle(s: State, h: nat, x: nat, n: Entry)
    requires Inv(s) && h !in s.refs && x < |s.t| && s.t[x].ref == 0 && n.key in s.disk && n.ref == 1 && n.busy.None? && !n.valid
    requires forall e :: 0 <= e < |s.t| ==> !Names(s.t[e], n.key)
    ensures Inv(s.(t := s.t[x := n], refs := s.refs[h := Ref(x, Held)]))
  {
    var r := s.(t := s.t[x := n], refs := s.refs[h := Ref(x, Held)]);
    assert EntryOk(s, x);
    assert RefsTo(s.refs, x) == {};
    forall e | 0 <= e < |r.t| ensures EntryOk(r, e) {
      assert EntryOk(s, e);
      AddRef(s.refs, h, Ref(x, Held), e);
    }
    forall k | k in r.refs ensures RefOk(r, k) {
      if k != h {
        assert RefOk(s, k);
        assert k !in RefsTo(s.refs, x);
      }
    }
  }

  lemma TakeKeeps(s: State, h: nat, key: Key)
    requires Inv(s) && CanTake(s, h, key)
    ensures Inv(Take(s, h, key))
  {
    var x := Slot(s.t, key).value;
    if s.t[x].ref > 0 {
      CountUp(s, h, x);
    } else {
      Recycle(s, h, x, Entry(key, 1, None, false, s.t[x].ino));
    }
  }

  /** ialloc picks an inode that is free on the disk: no valid copy of it can be current. */
  lemma AllocKeeps(s: State, key: Key, ino: Inode)
    requires Inv(s) && key in s.disk
    requires forall e :: 0 <= e < |s.t| && Names(s.t[e], key) && s.t[e].valid ==> Ahead(s.refs, s.t[e])
    ensures Inv(s.(disk := s.disk[key := ino]))
  {
    var r := s.(disk := s.disk[key := ino]);
    forall e | 0 <= e < |r.t| ensures EntryOk(r, e) { assert EntryOk(s, e); }
    forall k | k in r.refs ensures RefOk(r, k) { assert RefOk(s, k); }
  }

  /** A step of the reference h that leaves the counts alone. */
  lemma MoveKeeps(s: State, h: nat, n: Entry, phase: Phase, ino: Inode)
    requires Inv(s) && h in s.refs && In(s, h)
    requires n.key == At(s, h).key && n.ref == At(s, h).ref && (At(s, h).busy.None? || At(s, h).busy == Some(h))
    requires n.busy == if phase.Held? then None else Some(h)
    requires phase.Locked? || phase.Freeing? ==> n.valid
    requires phase.Freeing? ==> n.ino.nlink == 0
    requires (n.valid && phase != Locked(true) && !phase.Freed? ==> n.ino == ino) && (n.valid && !phase.Freed? ==> n.ino.kind > 0)
    requires forall e :: 0 <= e < |s.t| && Names(s.t[e], n.key) ==> e == s.refs[h].e
    ensures Inv(Move(s, h, n, phase).(disk := s.disk[n.key := ino]))
  {
    var x := s.refs[h].e;
    var r := Move(s, h, n, phase).(disk := s.disk[n.key := ino]);
    forall e | 0 <= e < |r.t| ensures EntryOk(r, e) {
      assert EntryOk(s, e) && EntryOk(s, x);
      SameRefs(s.refs, h, Ref(x, phase), e);
    }
    forall k | k in r.refs ensures RefOk(r, k) {
      assert RefOk(s, k);
    }
  }

  lemma DropKeeps(s: State, h: nat, n: Entry)
    requires Inv(s) && h in s.refs && In(s, h) && n.key == At(s, h).key && n.ref == At(s, h).ref - 1
    requires if s.refs[h].phase.Held? then n.busy == At(s, h).busy && n.valid == At(s, h).valid && n.ino == At(s, h).ino
             else n.busy.None? && !n.valid
    ensures Inv(Drop(s, h, n))
  {
    var r, x := Drop(s, h, n), s.refs[h].e;
    RefIn(s, h);
    assert RefOk(s, h);
    forall e | 0 <= e < |r.t| ensures EntryOk(r, e) {
      assert EntryOk(s, e) && EntryOk(s, x);
      DropRef(s.refs, h, e);
    }
    forall k | k in r.refs ensures RefOk(r, k) {
      assert RefOk(s, k);
    }
  }

  /** Entries for one inode are one. */
  lemma OneEntry(s: State, h: nat)
    requires Inv(s) && h in s.refs
    ensures In(s, h) && At(s, h).ref > 0
    ensures forall e :: 0 <= e < |s.t| && Names(s.t[e], At(s, h).key) ==> e == s.refs[h].e
  {
    RefIn(s, h);
  }

  lemma PutKeeps(s: State, h: nat)
    requires Inv(s) && Enabled(s, Put(h))
    ensures Inv(Do(s, Put(h)))
  {
    OneEntry(s, h);
    assert EntryOk(s, s.refs[h].e) && RefOk(s, h);
    if LastPut(s, h) {
      MoveKeeps(s, h, At(s, h).(busy := Some(h)), Freeing, OnDisk(s, h));
      assert s.disk[At(s, h).key := OnDisk(s, h)] == s.disk;
    } else {
      DropKeeps(s, h, At(s, h).(ref := At(s, h).ref - 1));
    }
  }

  /** Steps of a reference to a locked inode, or to one about to be. */
  lemma LockedKeeps(s: State, step: Step)
    requires Inv(s) && Enabled(s, step) && (step.Lock? || step.Set? || step.Update? || step.Unlock? || step.Free?)
    ensures Inv(Do(s, step))
  {
    var h := step.h;
    var n, now := At(s, h), OnDisk(s, h);
    OneEntry(s, h);
    assert EntryOk(s, s.refs[h].e) && RefOk(s, h);
    assert s.disk[n.key := now] == s.disk;
    match step
    case Lock(_) => MoveKeeps(s, h, n.(busy := Some(h), valid := true, ino := if n.valid then n.ino else now), Locked(false), now);
    case Set(_, ino) => MoveKeeps(s, h, n.(ino := ino), Locked(true), now);
    case Update(_) => MoveKeeps(s, h, n, Locked(false), n.ino);
    case Unlock(_) => MoveKeeps(s, h, n.(busy := None), Held, now);
    case Free(_) => MoveKeeps(s, h, n.(ino := n.ino.(kind := 0)), Freed, n.ino.(kind := 0));
  }

  /** Every step of every thread keeps the invariant. */
  lemma StepKeepsInv(s: State, step: Step)
    requires Inv(s) && Enabled(s, step)
    ensures Inv(Do(s, step))
  {
    match step
    case Get(h, key) => TakeKeeps(s, h, key);
    case Alloc(h, key, kind) =>
      forall e | 0 <= e < |s.t| && Names(s.t[e], key) && s.t[e].valid ensures Ahead(s.refs, s.t[e]) { assert EntryOk(s, e); }
      AllocKeeps(s, key, Inode(kind, 0));
      TakeKeeps(s.(disk := s.disk[key := Inode(kind, 0)]), h, key);
    case Dup(h, from) =>
      RefIn(s, from);
      CountUp(s, h, s.refs[from].e);
    case Put(h) => PutKeeps(s, h);
    case Finish(h) => DropKeeps(s, h, At(s, h).(busy := None, valid := false, ref := At(s, h).ref - 1));
    case _ => LockedKeeps(s, step);
  }

  // ---------------------------------------------------------------- asking for inodes by number

  /** The inode may be asked for by number: it is in use and nobody is freeing it. */
  ghost predicate Askable(s: State, key: Key) {
    && key in s.disk && s.disk[key].kind != 0
    && (forall k :: k in s.refs && In(s, k) && At(s, k).key == key ==> !s.refs[k].phase.Freeing?)
  }

  ghost predicate Proper(s: State, step: Step) { step.Get? ==> Askable(s, step.key) }

  /** An inode being freed has one reference, and one that is free on the disk only that of the
      iput that freed it. */
  ghost predicate FreeOk(s: State, h: nat)
    requires In(s, h)
  {
    && (s.refs[h].phase.Freeing? ==> RefsTo(s.refs, s.refs[h].e) == {h})
    && (OnDisk(s, h).kind == 0 ==> RefsTo(s.refs, s.refs[h].e) == {h} && s.refs[h].phase.Freed?)
  }

  ghost predicate SafeInv(s: State) {
    Inv(s) && forall h :: h in s.refs ==> In(s, h) && FreeOk(s, h)
  }

  lemma AllIn(s: State)
    requires Inv(s)
    ensures forall h :: h in s.refs ==> In(s, h)
  {
    forall h | h in s.refs ensures In(s, h) { RefIn(s, h); }
  }

  /** Two references to one inode share its entry. */
  lemma SameEntry(s: State, a: nat, b: nat)
    requires Inv(s) && a in s.refs && b in s.refs && In(s, a) && In(s, b) && At(s, a).key == At(s, b).key
    ensures s.refs[a].e == s.refs[b].e
  {
    RefIn(s, a);
    RefIn(s, b);
  }

  /** An inode with a reference outside iput is in use and not being freed. */
  lemma UsedIsSafe(s: State, a: nat, k: nat)
    requires SafeInv(s) && a in s.refs && k in s.refs && In(s, a) && In(s, k) && At(s, a).key == At(s, k).key
    requires s.refs[a].phase.Held? || s.refs[a].phase.Locked?
    ensures OnDisk(s, k).kind != 0 && !s.refs[k].phase.Freeing? && !(RefsTo(s.refs, s.refs[k].e) == {k} && k != a)
  {
    SameEntry(s, a, k);
    assert FreeOk(s, a) && FreeOk(s, k);
    assert a in RefsTo(s.refs, s.refs[k].e);
  }

  /** One more reference, to an inode that nobody is freeing. */
  lemma SafeTake(s: State, r: State, h: nat, x: nat)
    requires SafeInv(s) && Inv(r) && h !in s.refs && r.refs == s.refs[h := Ref(x, Held)] && x < |r.t| == |s.t|
    requires forall k :: k in s.refs ==> In(r, k) && At(r, k).key == At(s, k).key && (OnDisk(r, k).kind == 0 ==> OnDisk(s, k).kind == 0)
    requires In(r, h) && OnDisk(r, h).kind != 0
    requires forall k :: k in s.refs && s.refs[k].e == x ==> !s.refs[k].phase.Freeing?
    ensures SafeInv(r)
  {
    AllIn(r);
    forall k | k in r.refs ensures FreeOk(r, k) {
      AddRef(s.refs, h, Ref(x, Held), r.refs[k].e);
      if k != h { assert FreeOk(s, k); }
    }
  }

  /** No reference more or less; only the inode of h may be changed on the disk. */
  lemma SafeMove(s: State, h: nat, n: Entry, phase: Phase, ino: Inode, r: State)
    requires SafeInv(s) && h in s.refs && In(s, h) && n.key == At(s, h).key
    requires r == Move(s, h, n, phase).(disk := s.disk[n.key := ino]) && Inv(r)
    requires phase.Freeing? || ino.kind == 0 ==> RefsTo(s.refs, s.refs[h].e) == {h}
    requires ino.kind == 0 ==> phase.Freed?
    ensures SafeInv(r)
  {
    AllIn(r);
    forall k | k in r.refs ensures FreeOk(r, k) {
      SameRefs(s.refs, h, Ref(s.refs[h].e, phase), r.refs[k].e);
      assert FreeOk(s, k);
      RefIn(s, k);
      if At(s, k).key == n.key { SameEntry(s, h, k); }
    }
  }

  lemma SafeDrop(s: State, h: nat, n: Entry)
    requires SafeInv(s) && h in s.refs && In(s, h) && n.key == At(s, h).key && Inv(Drop(s, h, n))
    ensures SafeInv(Drop(s, h, n))
  {
    var r := Drop(s, h, n);
    AllIn(r);
    forall k | k in r.refs ensures FreeOk(r, k) {
      DropRef(s.refs, h, r.refs[k].e);
      assert FreeOk(s, k);
    }
  }

  /** iget keeps the stronger invariant exactly when the inode may be asked for. */
  lemma SafeGet(s: State, h: nat, key: Key)
    requires SafeInv(s) && CanTake(s, h, key) && Inv(Take(s, h, key))
    ensures SafeInv(Take(s, h, key)) <==> Askable(s, key)
  {
    var r, x := Take(s, h, key), Slot(s.t, key).value;
    TakeFrame(s, h, key);
    if Askable(s, key) {
      forall k | k in s.refs && s.refs[k].e == x ensures !s.refs[k].phase.Freeing? { RefIn(s, k); }
      SafeTake(s, r, h, x);
    }
    if SafeInv(r) {
      assert FreeOk(r, h);
      forall k | k in s.refs && In(s, k) && At(s, k).key == key ensures !s.refs[k].phase.Freeing? {
        SameEntry(r, h, k);
        assert FreeOk(r, k) && h in RefsTo(r.refs, r.refs[k].e);
      }
    }
  }

  /** Taking a reference leaves the others where they are. */
  lemma TakeFrame(s: State, h: nat, key: Key)
    requires Inv(s) && CanTake(s, h, key)
    ensures var r := Take(s, h, key);
      In(r, h) && At(r, h).key == key && forall k :: k in s.refs ==> In(s, k) && In(r, k) && At(r, k).key == At(s, k).key
  {
    var r := Take(s, h, key);
    forall k | k in s.refs ensures In(s, k) && In(r, k) && At(r, k).key == At(s, k).key { RefIn(s, k); }
  }

  lemma SafeAlloc(s: State, h: nat, key: Key, kind: nat)
    requires SafeInv(s) && CanTake(s, h, key) && s.disk[key].kind == 0 && kind > 0
    requires Inv(s.(disk := s.disk[key := Inode(kind, 0)])) && Inv(Take(s.(disk := s.disk[key := Inode(kind, 0)]), h, key))
    ensures SafeInv(Take(s.(disk := s.disk[key := Inode(kind, 0)]), h, key))
  {
    var m, x := s.(disk := s.disk[key := Inode(kind, 0)]), Slot(s.t, key).value;
    TakeFrame(m, h, key);
    AllIn(s);
    forall k | k in s.refs && s.refs[k].e == x ensures !s.refs[k].phase.Freeing? {
      RefIn(s, k);
      assert FreeOk(s, k);
    }
    SafeTake(s, Take(m, h, key), h, x);
  }

  lemma {:induction false} OneOnly(a: set<nat>, h: nat)
    requires h in a && |a| == 1
    ensures a == {h}
  {
    var rest := a - {h};
    assert a == rest + {h};
  }

  /** Every step but an improper iget keeps the stronger invariant too, and no improper iget does. */
  lemma StepKeepsSafe(s: State, step: Step)
    requires SafeInv(s) && Enabled(s, step)
    ensures SafeInv(Do(s, step)) <==> Proper(s, step)
  {
    StepKeepsInv(s, step);
    match step
    case Get(h, key) => SafeGet(s, h, key);
    case Alloc(h, key, kind) => SafeAllocStep(s, h, key, kind);
    case Dup(h, from) => SafeDup(s, h, from);
    case Put(h) => SafePut(s, h);
    case Finish(h) => SafeDrop(s, h, At(s, h).(busy := None, valid := false, ref := At(s, h).ref - 1));
    case _ => SafeLocked(s, step);
  }

  lemma SafeAllocStep(s: State, h: nat, key: Key, kind: nat)
    requires SafeInv(s) && Enabled(s, Alloc(h, key, kind)) && Inv(Do(s, Alloc(h, key, kind)))
    ensures SafeInv(Do(s, Alloc(h, key, kind)))
  {
    forall e | 0 <= e < |s.t| && Names(s.t[e], key) && s.t[e].valid ensures Ahead(s.refs, s.t[e]) { assert EntryOk(s, e); }
    AllocKeeps(s, key, Inode(kind, 0));
    SafeAlloc(s, h, key, kind);
  }

  lemma SafeDup(s: State, h: nat, from: nat)
    requires SafeInv(s) && Enabled(s, Dup(h, from)) && Inv(Do(s, Dup(h, from)))
    ensures SafeInv(Do(s, Dup(h, from)))
  {
    var r, x := Do(s, Dup(h, from)), s.refs[from].e;
    AllIn(s);
    forall k | k in s.refs && s.refs[k].e == x ensures !s.refs[k].phase.Freeing? { UsedIsSafe(s, from, k); }
    UsedIsSafe(s, from, from);
    SafeTake(s, r, h, x);
  }

  lemma SafePut(s: State, h: nat)
    requires SafeInv(s) && Enabled(s, Put(h)) && Inv(Do(s, Put(h)))
    ensures SafeInv(Do(s, Put(h)))
  {
    RefIn(s, h);
    UsedIsSafe(s, h, h);
    if LastPut(s, h) {
      assert EntryOk(s, s.refs[h].e);
      OneOnly(RefsTo(s.refs, s.refs[h].e), h);
      assert s.disk[At(s, h).key := OnDisk(s, h)] == s.disk;
      SafeMove(s, h, At(s, h).(busy := Some(h)), Freeing, OnDisk(s, h), Do(s, Put(h)));
    } else {
      SafeDrop(s, h, At(s, h).(ref := At(s, h).ref - 1));
    }
  }

  lemma SafeLocked(s: State, step: Step)
    requires SafeInv(s) && Enabled(s, step) && (step.Lock? || step.Set? || step.Update? || step.Unlock? || step.Free?) && Inv(Do(s, step))
    ensures SafeInv(Do(s, step))
  {
    var h := step.h;
    var n, now := At(s, h), OnDisk(s, h);
    assert FreeOk(s, h) && EntryOk(s, s.refs[h].e) && RefOk(s, h);
    RefIn(s, h);
    assert s.disk[n.key := now] == s.disk;
    match step
    case Lock(_) =>
      SafeMove(s, h, n.(busy := Some(h), valid := true, ino := if n.valid then n.ino else now), Locked(false), now, Do(s, step));
    case Set(_, ino) => SafeMove(s, h, n.(ino := ino), Locked(true), now, Do(s, step));
    case Update(_) => SafeMove(s, h, n, Locked(false), n.ino, Do(s, step));
    case Unlock(_) => SafeMove(s, h, n.(busy := None), Held, now, Do(s, step));
    case Free(_) => SafeMove(s, h, n.(ino := n.ino.(kind := 0)), Freed, n.ino.(kind := 0), Do(s, step));
  }

  // ---------------------------------------------------------------- runs

  ghost predicate Runs(s: State, steps: seq<Step>)
    decreases |steps|
  {
    steps == [] || (Enabled(s, steps[0]) && Runs(Do(s, steps[0]), steps[1..]))
  }

  ghost function Exec(s: State, steps: seq<Step>): State
    requires Runs(s, steps)
    decreases |steps|
  {
    if steps == [] then s else Exec(Do(s, steps[0]), steps[1..])
  }

  /** In every state of the run, inodes are asked for properly. */
  ghost predicate ProperRun(s: State, steps: seq<Step>)
    requires Runs(s, steps)
    decreases |steps|
  {
    steps == [] || (Proper(s, steps[0]) && ProperRun(Do(s, steps[0]), steps[1..]))
  }

  /** No reference yet. */
  ghost predicate Init(s: State) {
    s.refs == map[] && forall e :: 0 <= e < |s.t| ==> s.t[e].ref == 0 && s.t[e].busy.None?
  }

  lemma InitInv(s: State)
    requires Init(s)
    ensures SafeInv(s)
  {
    forall e | 0 <= e < |s.t| ensures EntryOk(s, e) { assert RefsTo(s.refs, e) == {}; }
  }

  lemma {:induction false} RunKeeps(s: State, steps: seq<Step>)
    requires Inv(s) && Runs(s, steps)
    ensures Inv(Exec(s, steps)) && (SafeInv(s) && ProperRun(s, steps) ==> SafeInv(Exec(s, steps)))
    decreases |steps|
  {
    if steps != [] {
      StepKeepsInv(s, steps[0]);
      if SafeInv(s) { StepKeepsSafe(s, steps[0]); }
      RunKeeps(Do(s, steps[0]), steps[1..]);
    }
  }

  /** After any run: the references to an inode share one entry, whose count is their number; at
      most one of them has it locked or is freeing it, and then I_BUSY is set; a valid copy that
      nobody is changing is the disk's; and iput never finds the inode busy that it is to free. */
  lemma CacheCoherent(boot: State, steps: seq<Step>, s: State, a: nat, b: nat)
    requires Init(boot) && Runs(boot, steps) && s == Exec(boot, steps) && a in s.refs && b in s.refs
    ensures In(s, a) && In(s, b) && At(s, a).ref == |RefsTo(s.refs, s.refs[a].e)|
    ensures At(s, a).key == At(s, b).key ==> s.refs[a].e == s.refs[b].e
    ensures !s.refs[a].phase.Held? ==> At(s, a).busy == Some(a)
    ensures s.refs[a].e == s.refs[b].e && !s.refs[a].phase.Held? && !s.refs[b].phase.Held? ==> a == b
    ensures At(s, a).busy.None? && At(s, a).valid ==> At(s, a).ino == OnDisk(s, a)
    ensures s.refs[a].phase.Held? ==> Enabled(s, Put(a))
  {
    InitInv(boot);
    RunKeeps(boot, steps);
    RefIn(s, a);
    RefIn(s, b);
    assert RefOk(s, a) && RefOk(s, b) && EntryOk(s, s.refs[a].e);
    assert At(s, a).busy.Some? ==> At(s, a).busy.value in RefsTo(s.refs, s.refs[a].e);
    if LastPut(s, a) { OneOnly(RefsTo(s.refs, s.refs[a].e), a); }
  }

  /** After any run in which inodes are asked for properly: an inode with a reference outside iput
      is in use, so that ilock never misses its type; and an inode is freed by the only reference
      to it, when it has no links. */
  lemma FreedAtLastReference(boot: State, steps: seq<Step>, s: State, h: nat)
    requires Init(boot) && Runs(boot, steps) && ProperRun(boot, steps) && s == Exec(boot, steps) && h in s.refs
    ensures In(s, h)
    ensures s.refs[h].phase.Held? || s.refs[h].phase.Locked? ==> OnDisk(s, h).kind != 0
    ensures s.refs[h].phase.Held? && At(s, h).busy.None? ==> Enabled(s, Lock(h))
    ensures Enabled(s, Free(h)) ==> RefsTo(s.refs, s.refs[h].e) == {h} && OnDisk(s, h).nlink == 0 && OnDisk(s, h).kind != 0
  {
    InitInv(boot);
    RunKeeps(boot, steps);
    RefIn(s, h);
    assert FreeOk(s, h) && RefOk(s, h) && EntryOk(s, s.refs[h].e);
  }

  /** While somebody outside iput refers to an inode, no step frees it. */
  lemma KeptWhileUsed(boot: State, steps: seq<Step>, s: State, step: Step, h: nat)
    requires Init(boot) && Runs(boot, steps) && ProperRun(boot, steps) && s == Exec(boot, steps)
    requires Enabled(s, step) && Proper(s, step) && h in s.refs && (s.refs[h].phase.Held? || s.refs[h].phase.Locked?)
    ensures In(s, h) && At(s, h).key in Do(s, step).disk && Do(s, step).disk[At(s, h).key].kind != 0
  {
    InitInv(boot);
    RunKeeps(boot, steps);
    RefIn(s, h);
    assert FreeOk(s, h);
    if step.Free? && At(s, step.h).key == At(s, h).key { UsedIsSafe(s, h, step.h); }
    if step.Update? { assert RefOk(s, step.h) && EntryOk(s, s.refs[step.h].e); RefIn(s, step.h); }
  }

  // ---------------------------------------------------------------- names come from links

  ghost predicate Using(s: State, k: nat, key: Key)
    requires k in s.refs
  {
    s.refs[k].e < |s.t| && s.t[s.refs[k].e].key == key && (s.refs[k].phase.Held? || s.refs[k].phase.Locked?)
  }

  /** An inode in use may be asked for if it has a link, as one that a linked directory names has, or
      if somebody outside iput refers to it, as to a directory that "." is looked up in. */
  lemma NamedIsAskable(s: State, key: Key)
    requires SafeInv(s) && key in s.disk && s.disk[key].kind != 0
    requires s.disk[key].nlink > 0 || exists k :: k in s.refs && Using(s, k, key)
    ensures Askable(s, key)
  {
    forall k | k in s.refs && In(s, k) && At(s, k).key == key ensures !s.refs[k].phase.Freeing? {
      RefIn(s, k);
      assert EntryOk(s, s.refs[k].e) && RefOk(s, k);
      if s.disk[key].nlink == 0 {
        var a :| a in s.refs && Using(s, a, key);
        UsedIsSafe(s, a, k);
      }
    }
  }

  // ---------------------------------------------------------------- when ilock misses the type

  /** ilock by h would panic for want of a type. */
  ghost predicate MissesType(s: State, h: nat) {
    In(s, h) && s.refs[h].phase.Held? && At(s, h).busy.None? && !At(s, h).valid && OnDisk(s, h).kind == 0
  }

  lemma RunsCons(s: State, step: Step, rest: seq<Step>)
    requires Enabled(s, step) && Runs(Do(s, step), rest)
    ensures Runs(s, [step] + rest) && Exec(s, [step] + rest) == Exec(Do(s, step), rest)
  {
    assert ([step] + rest)[1..] == rest;
  }

  /** h shares its entry with the iput k, which has yet to let go of it. */
  ghost predicate Beside(s: State, h: nat, k: nat, phase: Phase) {
    && In(s, h) && In(s, k) && h != k && s.refs[h] == Ref(s.refs[k].e, Held) && s.refs[k].phase == phase
    && At(s, k).ref > 0
  }

  lemma FinishMisses(s: State, h: nat, k: nat) returns (steps: seq<Step>)
    requires Beside(s, h, k, Freed) && OnDisk(s, h).kind == 0
    ensures steps == [Finish(k)] && Runs(s, steps) && MissesType(Exec(s, steps), h)
  {
    var none: seq<Step> := [];
    RunsCons(s, Finish(k), none);
    steps := [Finish(k)] + none;
  }

  lemma FreeMisses(s: State, h: nat, k: nat) returns (steps: seq<Step>)
    requires Beside(s, h, k, Freeing)
    ensures steps == [Free(k), Finish(k)] && Runs(s, steps) && MissesType(Exec(s, steps), h)
  {
    var rest := FinishMisses(Do(s, Free(k)), h, k);
    RunsCons(s, Free(k), rest);
    steps := [Free(k)] + rest;
  }

  lemma TakeBeside(s: State, h: nat, key: Key, k: nat)
    requires Inv(s) && CanTake(s, h, key) && k in s.refs && In(s, k) && At(s, k).key == key
    ensures Beside(Take(s, h, key), h, k, s.refs[k].phase)
  {
    OneEntry(s, k);
    assert Names(At(s, k), key);
    assert Slot(s.t, key) == Some(s.refs[k].e);
  }

  /** After an improper iget the iput in progress, if there is one, need only go on for ilock to
      miss the type. */
  lemma ImproperGetMisses(s: State, h: nat, key: Key) returns (steps: seq<Step>)
    requires SafeInv(s) && Enabled(s, Get(h, key)) && !Askable(s, key)
    ensures Runs(Do(s, Get(h, key)), steps) && MissesType(Exec(Do(s, Get(h, key)), steps), h)
    ensures forall i :: 0 <= i < |steps| ==> steps[i].Free? || steps[i].Finish?
  {
    var r := Do(s, Get(h, key));
    if k :| k in s.refs && In(s, k) && At(s, k).key == key {
      TakeBeside(s, h, key, k);
      assert FreeOk(s, k);
      if s.disk[key].kind == 0 {
        steps := FinishMisses(r, h, k);
      } else {
        var f :| f in s.refs && In(s, f) && At(s, f).key == key && s.refs[f].phase.Freeing?;
        TakeBeside(s, h, key, f);
        steps := FreeMisses(r, h, f);
      }
    } else {
      Unreferred(s, key);
      steps := [];
    }
  }

  lemma Unreferred(s: State, key: Key)
    requires Inv(s) && forall k :: k in s.refs && In(s, k) ==> At(s, k).key != key
    ensures forall e :: 0 <= e < |s.t| ==> !Names(s.t[e], key)
  {
    forall e | 0 <= e < |s.t| && s.t[e].ref > 0 ensures s.t[e].key != key {
      assert EntryOk(s, e);
      var k :| k in RefsTo(s.refs, e);
      RefIn(s, k);
    }
  }

  /** The stronger invariant holds in every state of the run. */
  ghost predicate SafeRun(s: State, steps: seq<Step>)
    requires Runs(s, steps)
    decreases |steps|
  {
    SafeInv(s) && (steps == [] || SafeRun(Do(s, steps[0]), steps[1..]))
  }

  /** It does so exactly in the runs in which inodes are asked for properly. */
  lemma {:induction false} SafeRunsExactly(s: State, steps: seq<Step>)
    requires SafeInv(s) && Runs(s, steps)
    ensures SafeRun(s, steps) <==> ProperRun(s, steps)
    decreases |steps|
  {
    if steps != [] {
      var r := Do(s, steps[0]);
      StepKeepsSafe(s, steps[0]);
      if SafeInv(r) { SafeRunsExactly(r, steps[1..]); }
    }
  }

  /** After n steps of the run the iput in progress goes on as in more, and then an ilock by h would
      miss its type. */
  ghost predicate MissesAfter(s: State, steps: seq<Step>, n: nat, more: seq<Step>, h: nat) {
    && n <= |steps| && (forall i :: 0 <= i < |more| ==> more[i].Free? || more[i].Finish?)
    && Runs(s, steps[..n] + more) && MissesType(Exec(s, steps[..n] + more), h)
  }

  /** In any other run some ilock can miss its type: after the first improper iget it is enough that
      the iput in progress goes on. */
  lemma {:induction false} ImproperRunMisses(s: State, steps: seq<Step>) returns (n: nat, more: seq<Step>, h: nat)
    requires SafeInv(s) && Runs(s, steps) && !ProperRun(s, steps)
    ensures MissesAfter(s, steps, n, more, h)
    decreases |steps|
  {
    var first, rest := steps[0], steps[1..];
    var r := Do(s, first);
    if Proper(s, first) {
      StepKeepsSafe(s, first);
      var m;
      m, more, h := ImproperRunMisses(r, rest);
      n := m + 1;
      RunsCons(s, first, rest[..m] + more);
      assert steps[..n] + more == [first] + (rest[..m] + more);
    } else {
      more := ImproperGetMisses(s, first.h, first.key);
      n, h := 1, first.h;
      RunsCons(s, first, more);
      assert steps[..n] + more == [first] + more;
    }
  }

  /** Steps of a proper run, then steps that are no iget. */
  lemma {:induction false} ProperThenPut(s: State, steps: seq<Step>, n: nat, more: seq<Step>)
    requires SafeInv(s) && Runs(s, steps) && ProperRun(s, steps) && n <= |steps| && Runs(s, steps[..n] + more)
    requires forall i :: 0 <= i < |more| ==> more[i].Free? || more[i].Finish?
    ensures SafeInv(Exec(s, steps[..n] + more))
    decreases n + |more|
  {
    var all := steps[..n] + more;
    if all != [] {
      StepKeepsSafe(s, all[0]);
      var r := Do(s, all[0]);
      if n == 0 {
        var none: seq<Step> := [];
        assert all[1..] == none[..0] + more[1..];
        ProperThenPut(r, none, 0, more[1..]);
      } else {
        assert all[1..] == steps[1..][..n - 1] + more;
        ProperThenPut(r, steps[1..], n - 1, more);
      }
    }
  }

  lemma SafeNeverMisses(s: State, h: nat)
    requires SafeInv(s)
    ensures !MissesType(s, h)
  {
    if h in s.refs { assert FreeOk(s, h); }
  }

  lemma ProperNeverMisses(s: State, steps: seq<Step>, n: nat, more: seq<Step>, h: nat)
    requires SafeInv(s) && Runs(s, steps) && ProperRun(s, steps)
    ensures !MissesAfter(s, steps, n, more, h)
  {
    if n <= |steps| && (forall i :: 0 <= i < |more| ==> more[i].Free? || more[i].Finish?) && Runs(s, steps[..n] + more) {
      ProperThenPut(s, steps, n, more);
      SafeNeverMisses(Exec(s, steps[..n] + more), h);
    }
  }

  /** Asking properly is the exact condition: along a run some ilock can be made to miss its type, by
      letting the iput in progress go on, if and only if an inode is asked for improperly. */
  lemma MissesExactly(s: State, steps: seq<Step>)
    requires SafeInv(s) && Runs(s, steps)
    ensures (exists n: nat, more: seq<Step>, h: nat :: MissesAfter(s, steps, n, more, h)) <==> !ProperRun(s, steps)
  {
    if ProperRun(s, steps) {
      forall n: nat, more: seq<Step>, h: nat ensures !MissesAfter(s, steps, n, more, h) {
        ProperNeverMisses(s, steps, n, more, h);
      }
    } else {
      var n, more, h := ImproperRunMisses(s, steps);
    }
  }

  /** Reference 0 is the only one, to entry x for the given inode. */
  ghost predicate Alone(s: State, x: nat, key: Key, phase: Phase) {
    && x < |s.t| && s.refs == map[0 := Ref(x, phase)] && s.t[x].key == key && s.t[x].ref == 1 && key in s.disk
    && (phase.Held? ==> s.t[x].busy.None?)
    && forall e :: 0 <= e < |s.t| && e != x ==> s.t[e].ref == 0
  }

  ghost predicate Reaches(s: State, r: State) { exists steps :: Runs(s, steps) && Exec(s, steps) == r }

  lemma {:induction false} RunsAppend(s: State, steps: seq<Step>, last: Step)
    requires Runs(s, steps) && Enabled(Exec(s, steps), last)
    ensures Runs(s, steps + [last]) && Exec(s, steps + [last]) == Do(Exec(s, steps), last)
    decreases |steps|
  {
    if steps == [] {
      assert steps + [last] == [last];
    } else {
      RunsAppend(Do(s, steps[0]), steps[1..], last);
      assert (steps + [last])[1..] == steps[1..] + [last];
    }
  }

  lemma ReachStep(s: State, m: State, last: Step)
    requires Reaches(s, m) && Enabled(m, last)
    ensures Reaches(s, Do(m, last))
  {
    var steps :| Runs(s, steps) && Exec(s, steps) == m;
    RunsAppend(s, steps, last);
  }

  /** The only reference takes the last link away. */
  lemma UnlinkAlone(boot: State, s: State, x: nat, key: Key) returns (r: State)
    requires Reaches(boot, s) && Alone(s, x, key, Held) && s.disk[key].kind > 0
    ensures Reaches(boot, r) && Alone(r, x, key, Locked(false)) && r.t[x].valid && r.t[x].ino.nlink == 0
  {
    var ino := Inode(s.disk[key].kind, 0);
    ReachStep(boot, s, Lock(0));
    r := Do(s, Lock(0));
    assert Alone(r, x, key, Locked(false));
    ReachStep(boot, r, Set(0, ino));
    r := Do(r, Set(0, ino));
    assert Alone(r, x, key, Locked(true));
    ReachStep(boot, r, Update(0));
    r := Do(r, Update(0));
  }

  /** It lets go of the inode, which iput is then to free. */
  lemma PutAlone(boot: State, s: State, x: nat, key: Key) returns (r: State)
    requires Reaches(boot, s) && Alone(s, x, key, Locked(false)) && s.t[x].valid && s.t[x].ino.nlink == 0
    ensures Reaches(boot, r) && Alone(r, x, key, Freeing)
  {
    ReachStep(boot, s, Unlock(0));
    r := Do(s, Unlock(0));
    assert Alone(r, x, key, Held);
    ReachStep(boot, r, Put(0));
    r := Do(r, Put(0));
  }

  /** Such runs exist for every linked inode: it loses its last link and its last reference, and while
      iput is freeing it it is asked for by number, as ".." in a directory that outlives its parent
      asks for the parent. */
  lemma ImproperGetFails(boot: State, key: Key) returns (s: State)
    requires Init(boot) && |boot.t| > 0 && key in boot.disk && boot.disk[key].kind > 0 && boot.disk[key].nlink > 0
    ensures Reaches(boot, s) && MissesType(s, 1) && !Enabled(s, Lock(1))
  {
    var none: seq<Step>, x := [], Slot(boot.t, key).value;
    assert Runs(boot, none) && Exec(boot, none) == boot;
    ReachStep(boot, boot, Get(0, key));
    s := UnlinkAlone(boot, Do(boot, Get(0, key)), x, key);
    s := PutAlone(boot, s, x, key);
    ReachInv(boot, s);
    TakeBeside(s, 1, key, 0);
    ReachStep(boot, s, Get(1, key));
    s := FreeBeside(boot, Do(s, Get(1, key)), 1, 0);
  }

  lemma FreeBeside(boot: State, s: State, h: nat, k: nat) returns (r: State)
    requires Reaches(boot, s) && Beside(s, h, k, Freeing)
    ensures Reaches(boot, r) && MissesType(r, h)
  {
    ReachStep(boot, s, Free(k));
    r := Do(s, Free(k));
    ReachStep(boot, r, Finish(k));
    r := Do(r, Finish(k));
  }

  lemma ReachInv(boot: State, s: State)
    requires Init(boot) && Reaches(boot, s)
    ensures Inv(s)
  {
    var steps :| Runs(boot, steps) && Exec(boot, steps) == s;
    InitInv(boot);
    RunKeeps(boot, steps);
  }
}
