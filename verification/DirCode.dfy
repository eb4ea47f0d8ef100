/** dirlookup, dirlink, isdirempty, and the parts of create, sys_link and sys_unlink that follow
    path lookup (fs.c, sysfile.c). */
module DirCode {
  import opened Options
  import opened Dir

  /** Slots a directory can have: MAXFILE blocks of 512 bytes, 16 bytes a slot. */
  const MAXSLOTS: nat := 4480

  /** dirlookup's scan: the first slot in use with the name. */
  method Dirlookup(e: seq<Dirent>, name: string) returns (r: Option<nat>)
    ensures r.Some? ==> r.value < |e| && e[r.value].inum != 0 && e[r.value].name == name && Absent(e[..r.value], name)
    ensures r.None? <==> Absent(e, name)
  {
    var k := 0;
    while k < |e|
      invariant 0 <= k <= |e| && Absent(e[..k], name)
    {
      if e[k].inum != 0 && e[k].name == name {
        return Some(k);
      }
      k := k + 1;
    }
    assert e[..|e|] == e;
    r := None;
  }

  /** With unique names, the slot dirlookup finds is the only one. */
  lemma OneEntry(e: seq<Dirent>, name: string, k: nat)
    requires UniqueNames(e) && k < |e| && e[k].inum != 0 && e[k].name == name
    ensures forall j :: 0 <= j < |e| && e[j].inum != 0 && e[j].name == name ==> j == k
  {
  }

  /** A directory file that is as long as a file can be and has no empty slot. */
  predicate Full(e: seq<Dirent>) {
    |e| >= MAXSLOTS && forall j :: 0 <= j < MAXSLOTS ==> e[j].inum != 0
  }

  datatype Linking = Done(e: seq<Dirent>) | Exists | Panics

  /** dirlink: writes the entry into the first empty slot, or at the end, unless the name exists;
      it panics when the directory file cannot grow. */
  method Dirlink(e: seq<Dirent>, name: string, inum: nat) returns (r: Linking, ghost k: nat)
    requires inum != 0
    ensures r.Exists? <==> !Absent(e, name)
    ensures k <= |e| && (forall j :: 0 <= j < k ==> e[j].inum != 0) && (k < |e| ==> e[k].inum == 0)
    ensures r.Done? ==> k < MAXSLOTS && r.e == Put(e, k, Dirent(inum, name))
    ensures r.Panics? <==> Absent(e, name) && Full(e)
  {
    var found := Dirlookup(e, name);
    var off := 0;
    while off < |e| && e[off].inum != 0
      invariant 0 <= off <= |e| && forall j :: 0 <= j < off ==> e[j].inum != 0
    {
      off := off + 1;
    }
    k := off;
    if found.Some? {
      return Exists, k;
    }
    if off >= MAXSLOTS {
      return Panics, k;
    }
    r := Done(Put(e, off, Dirent(inum, name)));
  }

  /** isdirempty: nothing but "." and "..". */
  method Isdirempty(e: seq<Dirent>) returns (r: bool)
    ensures r <==> IsEmpty(e)
  {
    var k := 2;
    while k < |e|
      invariant 2 <= k && forall j :: 2 <= j < k && j < |e| ==> e[j].inum == 0
    {
      if e[k].inum != 0 {
        return false;
      }
      k := k + 1;
    }
    r := true;
  }

  /** The outcome of a call: success with an inode number, an error return, or a panic. */
  datatype Result = Ok(inum: nat) | Fails | Panic

  predicate NoFree(t: seq<Node>) { forall j :: 0 < j < |t| ==> t[j].kind != Free }

  /** The name stands for a file. */
  predicate NamesFile(t: seq<Node>, dp: nat, name: string)
    requires dp < |t|
  {
    exists k :: 0 <= k < |t[dp].entries| && FileAt(t, t[dp].entries[k], name)
  }

  predicate FileAt(t: seq<Node>, de: Dirent, name: string) {
    0 < de.inum < |t| && de.name == name && t[de.inum].kind == File
  }

  /** Inode ip was free and now has its first name in dp. */
  ghost predicate Created(t: seq<Node>, r: seq<Node>, dp: nat, name: string, kind: Kind, ip: nat)
    requires dp < |t|
  {
    0 < ip < |t| && t[ip].kind == Free && exists k :: CreatedAt(t, r, dp, name, kind, ip, k)
  }

  predicate CreatedAt(t: seq<Node>, r: seq<Node>, dp: nat, name: string, kind: Kind, ip: nat, k: nat)
    requires dp < |t| && ip < |t|
  {
    && Room(t[dp].entries, k)
    && r == if kind == Dir then WithDir(t, dp, k, name, ip) else WithFile(t, dp, k, name, ip, kind)
  }

  /** unlink must refuse: a dot name, no such name, or a directory that is not empty. */
  ghost predicate Refused(t: seq<Node>, dp: nat, name: string)
    requires dp < |t|
  {
    name == "." || name == ".." || forall k :: 0 <= k < |t[dp].entries| && t[dp].entries[k].name == name ==> Keeps(t, t[dp].entries[k].inum)
  }

  predicate Keeps(t: seq<Node>, i: nat) {
    i == 0 || (i < |t| && t[i].kind == Dir && !IsEmpty(t[i].entries))
  }

  /** The name of inode i has gone from dp, and the counts with it. */
  ghost predicate Removed(t: seq<Node>, r: seq<Node>, dp: nat, name: string, i: nat)
    requires dp < |t|
  {
    0 < i < |t| && t[i].nlink > 0 && t[dp].nlink > 0 && exists k :: RemovedAt(t, r, dp, name, i, k)
  }

  predicate RemovedAt(t: seq<Node>, r: seq<Node>, dp: nat, name: string, i: nat, k: nat)
    requires dp < |t| && i < |t| && t[i].nlink > 0 && t[dp].nlink > 0
  {
    && 2 <= k < |t[dp].entries| && t[dp].entries[k] == Dirent(i, name)
    && r == if t[i].kind == Dir then WithoutDir(t, dp, k, i) else WithoutFile(t, dp, k, i)
  }

  class FileTree {
    var t: seq<Node>
    ghost var g: Plan

    ghost predicate Valid()
      reads this
    {
      Inv(t, g)
    }

    /** The file system mkfs makes: nothing but the root directory. */
    constructor (n: nat)
      requires n > ROOTINO
      ensures Valid() && t == InitialTree(n)
    {
      t := InitialTree(n);
      g := Plan(seq(n, _ => 0), seq(n, _ => 0), seq(n, _ => 0));
      InitialInv(n, Plan(seq(n, _ => 0), seq(n, _ => 0), seq(n, _ => 0)));
    }

    /** ialloc: the first free inode. */
    method Ialloc() returns (r: Option<nat>)
      ensures r.Some? ==> 0 < r.value < |t| && t[r.value].kind == Free && forall j :: 0 < j < r.value ==> t[j].kind != Free
      ensures r.None? <==> NoFree(t)
    {
      var i := 1;
      while i < |t|
        invariant 1 <= i && forall j :: 0 < j < i && j < |t| ==> t[j].kind != Free
      {
        if t[i].kind == Free {
          return Some(i);
        }
        i := i + 1;
      }
      r := None;
    }

    /** create() in a directory: an existing file is returned when a file is asked for, anything
        else by that name is an error, and a new inode is entered under the name. In a directory
        that still has a link this keeps the counts and the tree. */
    method Create(dp: nat, name: string, kind: Kind) returns (r: Result)
      requires Valid() && dp < |t| && t[dp].kind == Dir && kind != Free && GoodName(name)
      modifies this
      ensures !r.Panic? && (old(t[dp]).nlink > 0 || t == old(t)) ==> Valid()
      ensures !Absent(old(t[dp].entries), name) ==> t == old(t) && (r.Ok? <==> kind == File && NamesFile(t, dp, name))
      ensures !Absent(old(t[dp].entries), name) && r.Ok? ==> exists k :: 0 <= k < |t[dp].entries| && t[dp].entries[k] == Dirent(r.inum, name)
      ensures r.Panic? <==> Absent(old(t[dp].entries), name) && (NoFree(old(t)) || Full(old(t[dp].entries)))
      ensures Absent(old(t[dp].entries), name) ==> !r.Fails?
      ensures Absent(old(t[dp].entries), name) && r.Ok? ==> Created(old(t), t, dp, name, kind, r.inum)
    {
      var e := t[dp].entries;
      assert DirOk(t, dp);
      var hit := Dirlookup(e, name);
      if hit.Some? {
        var ip := e[hit.value].inum;
        OneEntry(e, name, hit.value);
        assert t[ip].kind == File ==> FileAt(t, e[hit.value], name);
        if kind == File && t[ip].kind == File {
          return Ok(ip);
        }
        return Fails;
      }
      var free := Ialloc();
      if free.None? {
        return Panic;
      }
      var ip := free.value;
      var put, k := Dirlink(e, name, ip);
      if !put.Done? {
        return Panic;
      }
      if kind == Dir {
        ghost var h := g.(depth := g.depth[ip := g.depth[dp] + 1], slot := g.slot[ip := k]);
        if Linked(t[dp]) { EnterDir(t, g, dp, k, name, ip); }
        g := h;
        var dots := MakeDots(ip, dp);
        t := t[ip := Node(Dir, 1, dots)][dp := t[dp].(nlink := t[dp].nlink + 1, entries := put.e)];
      } else {
        if Linked(t[dp]) { EnterFile(t, g, dp, k, name, ip, kind); }
        t := t[ip := Node(kind, 1, [])][dp := t[dp].(entries := put.e)];
      }
      assert CreatedAt(old(t), t, dp, name, kind, ip, k);
      r := Ok(ip);
    }

    /** sys_link once the old path is resolved: directories are refused, else a link is taken. */
    method LinkTake(ip: nat) returns (r: Result)
      requires Valid() && 0 < ip < |t| && t[ip].kind != Free
      modifies this
      ensures Valid() && !r.Panic? && (r.Fails? <==> old(t[ip]).kind == Dir)
      ensures r.Fails? ==> t == old(t) && g == old(g)
      ensures r.Ok? ==> t == old(t)[ip := old(t[ip]).(nlink := old(t[ip]).nlink + 1)] && g == Bump(old(g), ip, old(g.pending[ip]) + 1)
    {
      if t[ip].kind == Dir {
        return Fails;
      }
      var n := t[ip].(nlink := t[ip].nlink + 1);
      TakeLink(t, g, ip, n);
      g := Bump(g, ip, g.pending[ip] + 1);
      t := t[ip := n];
      r := Ok(ip);
    }

    /** sys_link once the new path's directory is resolved: the name is entered, or the link taken
        before is given back. If the directory still has a link the counts stay right. */
    method LinkEnter(ip: nat, dp: nat, name: string) returns (r: Result)
      requires Valid() && 0 < ip < |t| && g.pending[ip] > 0 && dp < |t| && t[dp].kind == Dir && GoodName(name)
      modifies this
      ensures !r.Panic? ==> g == Bump(old(g), ip, old(g.pending[ip]) - 1)
      ensures r.Fails? || (r.Ok? && old(t[dp]).nlink > 0) ==> Valid()
      ensures r.Fails? <==> !Absent(old(t[dp].entries), name)
      ensures r.Panic? <==> Absent(old(t[dp].entries), name) && Full(old(t[dp].entries))
      ensures r.Fails? ==> old(t[ip]).nlink > 0 && t == old(t)[ip := old(t[ip]).(nlink := old(t[ip]).nlink - 1)]
      ensures r.Ok? ==> exists k :: Room(old(t[dp].entries), k) && t == old(t)[dp := PutIn(old(t[dp]), k, Dirent(ip, name))]
    {
      assert DirOk(t, dp);
      var put, k := Dirlink(t[dp].entries, name, ip);
      if put.Panics? {
        return Panic;
      }
      if put.Exists? {
        LinkAbort(ip);
        return Fails;
      }
      if Linked(t[dp]) { EnterName(t, g, dp, k, name, ip); }
      g := Bump(g, ip, g.pending[ip] - 1);
      t := t[dp := t[dp].(entries := put.e)];
      assert Room(old(t[dp].entries), k) && t == old(t)[dp := PutIn(old(t[dp]), k, Dirent(ip, name))];
      r := Ok(ip);
    }

    /** sys_link's rollback. */
    method LinkAbort(ip: nat)
      requires Valid() && 0 < ip < |t| && g.pending[ip] > 0
      modifies this
      ensures Valid() && g == Bump(old(g), ip, old(g.pending[ip]) - 1)
      ensures old(t[ip]).nlink > 0 && t == old(t)[ip := old(t[ip]).(nlink := old(t[ip]).nlink - 1)]
    {
      DropLink(t, g, ip);
      g := Bump(g, ip, g.pending[ip] - 1);
      t := t[ip := t[ip].(nlink := t[ip].nlink - 1)];
    }

    /** sys_unlink once the directory is resolved: "." and "..", a missing name and a directory
        with entries are refused; otherwise the entry goes and the counts follow. The panic for
        a count below 1 is never reached. */
    method Unlink(dp: nat, name: string) returns (r: Result)
      requires Valid() && dp < |t| && t[dp].kind == Dir
      modifies this
      ensures Valid() && !r.Panic? && g == old(g)
      ensures r.Fails? ==> t == old(t)
      ensures r.Ok? ==> Removed(old(t), t, dp, name, r.inum)
      ensures r.Fails? <==> Refused(old(t), dp, name)
    {
      assert DirOk(t, dp);
      if name == "." || name == ".." {
        return Fails;
      }
      var e := t[dp].entries;
      var hit := Dirlookup(e, name);
      if hit.None? {
        return Fails;
      }
      var k, i := hit.value, e[hit.value].inum;
      OneEntry(e, name, k);
      if t[i].kind == Dir {
        var empty := Isdirempty(t[i].entries);
        if !empty {
          return Fails;
        }
        UnlinkDir(t, g, dp, k, i);
        if t[i].nlink < 1 {
          return Panic;
        }
        LoneDir(t, g, dp, k, i);
        t := t[dp := t[dp].(entries := e[k := Dirent(0, "")], nlink := t[dp].nlink - 1)];
      } else {
        UnlinkFile(t, g, dp, k, i);
        if t[i].nlink < 1 {
          return Panic;
        }
        t := t[dp := t[dp].(entries := e[k := Dirent(0, "")])];
      }
      t := t[i := t[i].(nlink := t[i].nlink - 1)];
      assert RemovedAt(old(t), t, dp, name, i, k);
      r := Ok(i);
    }

    /** The last iput of an inode without links frees it. */
    method IputLast(i: nat)
      requires Valid() && 0 < i < |t|
      modifies this
      ensures Valid() && g == old(g)
      ensures t == if old(t[i]).nlink == 0 then old(t)[i := Node(Free, 0, [])] else old(t)
    {
      if t[i].nlink == 0 {
        FreeInode(t, g, i);
        t := t[i := Node(Free, 0, [])];
      }
    }
  }

  /** mkdir and unlink of a directory that somebody still has open leave it unlinked but in use. */
  method MkdirUnlink(n: nat) returns (f: FileTree, dp: nat)
    requires n >= 3
    ensures fresh(f) && f.Valid() && |f.t| == n && f.t[ROOTINO].entries == [Dirent(ROOTINO, "."), Dirent(ROOTINO, ".."), Dirent(0, "")]
    ensures 0 < dp < n && f.t[dp].kind == Dir && f.t[dp].nlink == 0 && f.t[dp].entries == [Dirent(dp, "."), Dirent(ROOTINO, "..")]
    ensures forall j :: 2 <= j < n && j != dp ==> f.t[j].kind == Free
  {
    f := new FileTree(n);
    ghost var t0 := f.t;
    assert t0[2].kind == Free && t0[ROOTINO] == NewDir(ROOTINO, ROOTINO);
    var made := f.Create(ROOTINO, "a", Dir);
    dp := made.inum;
    ghost var t1 := f.t;
    ghost var k :| CreatedAt(t0, t1, ROOTINO, "a", Dir, dp, k);
    assert t1[ROOTINO].entries[2] == Dirent(dp, "a") && |t1[ROOTINO].entries| == 3;
    var gone := f.Unlink(ROOTINO, "a");
  }

  /** So the equivalences CreateFileNeedsLink and CreateDirNeedsLink speak of states that occur:
      creating anything there leaves counts or a tree that no entries account for. */
  method CreateInUnlinked(n: nat, kind: Kind) returns (f: FileTree, ghost t: seq<Node>, ghost g: Plan, dp: nat, ip: nat)
    requires n >= 4 && kind != Free
    ensures fresh(f) && Inv(t, g) && 0 < dp < |t| && t[dp].kind == Dir && t[dp].nlink == 0 && 0 < ip < |t| && t[ip].kind == Free
    ensures Room(t[dp].entries, 2) && CreatedAt(t, f.t, dp, "x", kind, ip, 2)
    ensures !exists h: Plan :: (kind != Dir ==> h.pending == g.pending) && Inv(f.t, h)
  {
    f, dp := MkdirUnlink(n);
    t, g := f.t, f.g;
    ghost var spare := if dp == 2 then 3 else 2;
    assert t[spare].kind == Free;
    var made := f.Create(dp, "x", kind);
    ip := made.inum;
    if kind == Dir {
      CreateDirNeedsLink(t, g, dp, 2, "x", ip);
    } else {
      CreateFileNeedsLink(t, g, dp, 2, "x", ip, kind);
    }
  }

  /** And so does EnterNameNeedsLink: a link taken to a file and entered there. */
  method LinkInUnlinked(n: nat) returns (f: FileTree, ghost t: seq<Node>, ghost g: Plan, dp: nat, ip: nat)
    requires n >= 4
    ensures fresh(f) && Inv(t, g) && 0 < dp < |t| && t[dp].kind == Dir && t[dp].nlink == 0 && 0 < ip < |t| && g.pending[ip] > 0
    ensures Room(t[dp].entries, 2) && f.t == t[dp := PutIn(t[dp], 2, Dirent(ip, "x"))]
    ensures !exists h: Plan :: h.pending == g.pending[ip := g.pending[ip] - 1] && Inv(f.t, h)
  {
    f, dp := MkdirUnlink(n);
    ip := MakeFile(f, dp);
    var taken := f.LinkTake(ip);
    t, g := f.t, f.g;
    var entered := f.LinkEnter(ip, dp, "x");
    EnterNameNeedsLink(t, g, dp, 2, "x", ip);
  }

  /** creat in the root of the tree that MkdirUnlink leaves. */
  method MakeFile(f: FileTree, ghost dp: nat) returns (ip: nat)
    requires f.Valid() && |f.t| >= 4 && 2 <= dp < |f.t| && f.t[dp].kind == Dir
    requires f.t[ROOTINO].entries == [Dirent(ROOTINO, "."), Dirent(ROOTINO, ".."), Dirent(0, "")]
    requires forall j :: 2 <= j < |f.t| && j != dp ==> f.t[j].kind == Free
    modifies f
    ensures f.Valid() && |f.t| == |old(f.t)| && f.t[dp] == old(f.t[dp]) && 0 < ip < |f.t| && ip != dp && f.t[ip].kind == File
  {
    ghost var spare := if dp == 2 then 3 else 2;
    assert f.t[spare].kind == Free;
    var made := f.Create(ROOTINO, "f", File);
    ip := made.inum;
  }

  /** create()'s two dirlink calls on the new directory. */
  method MakeDots(ip: nat, dp: nat) returns (e: seq<Dirent>)
    requires ip != 0 && dp != 0
    ensures e == [Dirent(ip, "."), Dirent(dp, "..")]
  {
    var none: seq<Dirent> := [];
    var a, k := Dirlink(none, ".", ip);
    var b, l := Dirlink(a.e, "..", dp);
    e := b.e;
  }
}
